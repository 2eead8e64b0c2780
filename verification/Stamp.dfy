/**
 Backup timestamps: the "20060102-150405" text that the backup runner puts into file names, and the way the
 retention code finds and reads it in a storage key.
 */
module Stamp {
  import opened Wrappers
  import opened Decimal
  import opened Calendar

  /** Whole seconds into the day. */
  function Clock(t: Instant): (s: nat)
    ensures s < 86_400
  {
    TimeOfDay(t) / SECOND
  }

  function DateDigits(d: int): string
    requires YearOf(d) >= 0
  {
    Pad(YearOf(d), 4) + Pad(MonthInYear(d), 2) + Pad(DayInMonth(d), 2)
  }

  function ClockDigits(s: nat): string
  {
    Pad(s / 3600, 2) + Pad(s / 60 % 60, 2) + Pad(s % 60, 2)
  }

  /** Format("20060102-150405") for years from 0 on. */
  function Text(t: Instant): string
    requires YearOf(DayOf(t)) >= 0
  {
    DateDigits(DayOf(t)) + "-" + ClockDigits(Clock(t))
  }

  predicate InRange(t: Instant) { 0 <= YearOf(DayOf(t)) <= 9999 }

  /** Eight digits, a dash and six digits. */
  predicate IsStamp(s: string)
  {
    |s| == 15 && AllDigits(s[..8]) && s[8] == '-' && AllDigits(s[9..])
  }

  predicate MatchAt(key: string, i: nat) { i + 15 <= |key| && IsStamp(key[i..i + 15]) }

  /** The leftmost match at or after index i. */
  function FindFrom(key: string, i: nat): (r: Option<nat>)
    requires i <= |key|
    ensures r.Some? ==> i <= r.value && MatchAt(key, r.value) && forall k :: i <= k < r.value ==> !MatchAt(key, k)
    ensures r.None? ==> forall k :: i <= k ==> !MatchAt(key, k)
    decreases |key| - i
  {
    if MatchAt(key, i) then Some(i)
    else if i == |key| then None
    else FindFrom(key, i + 1)
  }

  /** The day with the given year, month and day of the month, if there is one. */
  function Date(year: int, month: int, day: int): (r: Option<int>)
    ensures r.Some? <==> 1 <= month <= 12
                         && 1 <= day <= MonthStart(12 * year + month) - MonthStart(12 * year + month - 1)
  {
    hide MonthStart;
    var m := 12 * year + month - 1;
    if 1 <= month <= 12 && 1 <= day <= MonthStart(m + 1) - MonthStart(m) then Some(MonthStart(m) + day - 1) else None
  }

  /** time.Parse("20060102-150405", s) of a text of the matched shape: out-of-range fields are errors. */
  function Parse(s: string): Option<Instant>
    requires IsStamp(s)
  {
    var date, clock := s[..8], s[9..];
    var h, mi, sec := Value(clock[..2]), Value(clock[2..4]), Value(clock[4..]);
    match Date(Value(date[..4]), Value(date[4..6]), Value(date[6..]))
    case Some(d) =>
      if h < 24 && mi < 60 && sec < 60 then Some(DAY * d + SECOND * (3600 * h + 60 * mi + sec)) else None
    case None => None
  }

  /** parseTimestampFromKey: only the leftmost match is tried. */
  function ParseKey(key: string): Option<Instant>
  {
    match FindFrom(key, 0)
    case Some(i) => Parse(key[i..i + 15])
    case None => None
  }

  // ---- printing and parsing are inverse ----

  lemma TextShape(t: Instant)
    requires InRange(t)
    ensures |DateDigits(DayOf(t))| == 8 && |ClockDigits(Clock(t))| == 6
    ensures IsStamp(Text(t))
  {
    FourDigits(YearOf(DayOf(t)));
    TwoDigits(MonthInYear(DayOf(t)));
    TwoDigits(DayInMonth(DayOf(t)));
    TwoDigits(Clock(t) / 3600);
    TwoDigits(Clock(t) / 60 % 60);
    TwoDigits(Clock(t) % 60);
  }

  /** Three numbers printed one after the other in fixed widths can be read back. */
  lemma FieldsReadBack(a: nat, wa: nat, b: nat, c: nat)
    requires |Pad(a, wa)| == wa && b < 100 && c < 100
    ensures var s := Pad(a, wa) + Pad(b, 2) + Pad(c, 2);
            |s| == wa + 4 && Value(s[..wa]) == a && Value(s[wa..wa + 2]) == b && Value(s[wa + 2..]) == c
  {
    hide Value, Pad;
    TwoDigits(b);
    TwoDigits(c);
    ValueOfPad(a, wa);
    ValueOfPad(b, 2);
    ValueOfPad(c, 2);
    var s := Pad(a, wa) + Pad(b, 2) + Pad(c, 2);
    assert s[..wa] == Pad(a, wa) && s[wa..wa + 2] == Pad(b, 2) && s[wa + 2..] == Pad(c, 2);
  }

  lemma ClockRoundTrip(s: nat)
    requires s < 86_400
    ensures var c := ClockDigits(s);
            |c| == 6 && Value(c[..2]) == s / 3600 && Value(c[2..4]) == s / 60 % 60 && Value(c[4..]) == s % 60
  {
    TwoDigits(s / 3600);
    FieldsReadBack(s / 3600, 2, s / 60 % 60, s % 60);
  }

  lemma DateRoundTrip(d: int)
    requires 0 <= YearOf(d) <= 9999
    ensures var c := DateDigits(d);
            |c| == 8 && Value(c[..4]) == YearOf(d) && Value(c[4..6]) == MonthInYear(d) && Value(c[6..]) == DayInMonth(d)
  {
    hide YearOf, MonthInYear, DayInMonth;
    FourDigits(YearOf(d));
    FieldsReadBack(YearOf(d), 4, MonthInYear(d), DayInMonth(d));
  }

  lemma DateOfFields(d: int)
    ensures Date(YearOf(d), MonthInYear(d), DayInMonth(d)) == Some(d)
  {
    hide MonthStart, MonthOf;
    assert 12 * YearOf(d) + MonthInYear(d) - 1 == MonthOf(d);
  }

  lemma ClockParts(s: nat)
    ensures 3600 * (s / 3600) + 60 * (s / 60 % 60) + s % 60 == s
  {
    assert s / 3600 == s / 60 / 60;
  }

  lemma WholeSecondParts(t: Instant)
    ensures WholeSecond(t) == DAY * DayOf(t) + SECOND * Clock(t)
  {
    assert t == DAY * DayOf(t) + TimeOfDay(t);
    assert TimeOfDay(t) % SECOND == t % SECOND;
  }

  /** Every instant of the years 0 to 9999 is read back from its text, up to the fraction of a second. */
  lemma ParseOfText(t: Instant)
    requires InRange(t)
    ensures IsStamp(Text(t)) && Parse(Text(t)) == Some(WholeSecond(t))
  {
    hide DateDigits, ClockDigits, YearOf, MonthInYear, DayInMonth, DayOf, Clock, WholeSecond, Date, Value;
    TextShape(t);
    var d, s := DayOf(t), Clock(t);
    DateRoundTrip(d);
    DateOfFields(d);
    ClockRoundTrip(s);
    ClockParts(s);
    WholeSecondParts(t);
    assert Text(t)[..8] == DateDigits(d) && Text(t)[9..] == ClockDigits(s);
  }

  lemma DateOfDigits(date: string)
    requires |date| == 8 && AllDigits(date)
    requires Date(Value(date[..4]), Value(date[4..6]), Value(date[6..])).Some?
    ensures var d := Date(Value(date[..4]), Value(date[4..6]), Value(date[6..])).value;
            0 <= YearOf(d) <= 9999 && DateDigits(d) == date
  {
    hide MonthStart, MonthOf, Value, Pad;
    var y, m, dd := Value(date[..4]), Value(date[4..6]), Value(date[6..]);
    var d := Date(y, m, dd).value;
    MonthOfIs(12 * y + m - 1, d);
    assert YearOf(d) == y && MonthInYear(d) == m && DayInMonth(d) == dd;
    PadOfValue(date[..4]);
    PadOfValue(date[4..6]);
    PadOfValue(date[6..]);
    YearFits(date[..4]);
    assert date == date[..4] + date[4..6] + date[6..];
  }

  lemma ClockOfDigits(clock: string, d: int)
    requires |clock| == 6 && AllDigits(clock)
    requires Value(clock[..2]) < 24 && Value(clock[2..4]) < 60 && Value(clock[4..]) < 60
    ensures var t := DAY * d + SECOND * (3600 * Value(clock[..2]) + 60 * Value(clock[2..4]) + Value(clock[4..]));
            DayOf(t) == d && WholeSecond(t) == t && ClockDigits(Clock(t)) == clock
  {
    hide Value, Pad, Clock, DayOf, WholeSecond;
    ClockOfFields(d, Value(clock[..2]), Value(clock[2..4]), Value(clock[4..]));
    PadOfValue(clock[..2]);
    PadOfValue(clock[2..4]);
    PadOfValue(clock[4..]);
    assert clock == clock[..2] + clock[2..4] + clock[4..];
  }

  /** The parser accepts nothing but what the printer writes. */
  lemma TextOfParse(s: string)
    requires IsStamp(s) && Parse(s).Some?
    ensures var t := Parse(s).value; InRange(t) && WholeSecond(t) == t && Text(t) == s
  {
    hide MonthStart, MonthOf, Value, Date, DateDigits, ClockDigits, Clock, DayOf, WholeSecond, YearOf;
    var date, clock := s[..8], s[9..];
    DateOfDigits(date);
    ClockOfDigits(clock, Date(Value(date[..4]), Value(date[4..6]), Value(date[6..])).value);
    assert s == date + "-" + clock;
  }

  lemma YearFits(s: string)
    requires AllDigits(s) && |s| == 4
    ensures Value(s) <= 9999
  {
    PadOfValue(s);
    assert Pow10(4) == 10 * Pow10(3) == 100 * Pow10(2) == 1000 * Pow10(1) == 10000;
  }

  lemma ClockOfFields(d: int, h: nat, mi: nat, sec: nat)
    requires h < 24 && mi < 60 && sec < 60
    ensures var t := DAY * d + SECOND * (3600 * h + 60 * mi + sec);
            var s := Clock(t);
            DayOf(t) == d && s / 3600 == h && s / 60 % 60 == mi && s % 60 == sec && WholeSecond(t) == t
  {
    var n := 3600 * h + 60 * mi + sec;
    var t := DAY * d + SECOND * n;
    DayAndTime(d, SECOND * n);
    assert Clock(t) == n;
    assert n / 60 == 60 * h + mi;
    WholeSecondParts(t);
  }

  // ---- timestamps inside storage keys ----

  /** strings.TrimSuffix(path, "/") */
  function Directory(path: string): string
  {
    if |path| > 0 && path[|path| - 1] == '/' then path[..|path| - 1] else path
  }

  function FullPath(path: string, filename: string): string { Directory(path) + "/" + filename }

  /** A slash at the end of the directory makes no difference. */
  lemma TrailingSlashIsIgnored(path: string, filename: string)
    requires path == "" || path[|path| - 1] != '/'
    ensures FullPath(path + "/", filename) == FullPath(path, filename) == path + "/" + filename
  {
    assert (path + "/")[..|path|] == path;
  }

  /** No part of a directory name looks like a timestamp. */
  ghost predicate NoStampIn(path: string) { forall i: nat :: !MatchAt(path, i) }

  lemma MatchDependsOnWindow(key: string, rest: string, i: nat)
    requires i + 15 <= |key|
    ensures MatchAt(key, i) <==> MatchAt(key + rest, i)
  {
    assert (key + rest)[i..i + 15] == key[i..i + 15];
  }

  /** In the text before a timestamp, together with that timestamp, no match begins. */
  ghost predicate NoStampBefore(front: string, stamp: string)
  {
    forall i: nat :: i < |front| ==> !MatchAt(front + stamp, i)
  }

  lemma StampHasNoSlash(s: string)
    requires IsStamp(s)
    ensures '/' !in s
  {
    assert s == s[..8] + [s[8]] + s[9..];
    assert !IsDigit('/');
  }

  /** A slash cannot be part of a match, so matches lie on one side of it. */
  lemma SlashEndsMatch(dir: string, rest: string, i: nat)
    requires i <= |dir| < i + 15
    ensures !MatchAt(dir + "/" + rest, i)
  {
    hide IsStamp;
    var key := dir + "/" + rest;
    if i + 15 <= |key| {
      var s := key[i..i + 15];
      assert s[|dir| - i] == '/';
      if IsStamp(s) {
        StampHasNoSlash(s);
      }
    }
  }

  /** Whether a match begins at a place of the file name depends on the file name alone. */
  lemma MatchInName(dir: string, name: string, i: nat)
    ensures MatchAt(dir + "/" + name, |dir| + 1 + i) <==> MatchAt(name, i)
  {
    var key := dir + "/" + name;
    if i + 15 <= |name| {
      assert key[|dir| + 1 + i..|dir| + 1 + i + 15] == name[i..i + 15];
    }
  }

  lemma MatchInDirectory(dir: string, name: string, path: string, i: nat)
    requires NoStampIn(path) && dir <= path && i <= |dir|
    ensures !MatchAt(dir + "/" + name, i)
  {
    if i + 15 <= |dir| {
      MatchDependsOnWindow(dir, "/" + name, i);
      MatchDependsOnWindow(dir, path[|dir|..], i);
      assert dir + ("/" + name) == dir + "/" + name && dir + path[|dir|..] == path;
      assert !MatchAt(path, i);
    } else {
      SlashEndsMatch(dir, name, i);
    }
  }

  lemma NoEarlierMatch(path: string, dir: string, front: string, stamp: string, rest: string, i: nat)
    requires NoStampIn(path) && dir <= path && NoStampBefore(front, stamp) && IsStamp(stamp) && i < |dir| + 1 + |front|
    ensures !MatchAt(dir + "/" + (front + stamp + rest), i)
  {
    StampLength(stamp);
    hide IsStamp, MatchAt;
    var name := front + stamp + rest;
    if i <= |dir| {
      MatchInDirectory(dir, name, path, i);
    } else {
      var k := i - |dir| - 1;
      assert !MatchAt(front + stamp, k);
      MatchDependsOnWindow(front + stamp, rest, k);
      MatchInName(dir, name, k);
    }
  }

  lemma FirstMatchDates(key: string, at: nat, stamp: string)
    requires at + 15 <= |key| && key[at..at + 15] == stamp && IsStamp(stamp)
    requires forall i: nat :: i < at ==> !MatchAt(key, i)
    ensures ParseKey(key) == Parse(stamp)
  {
    hide Parse;
    assert MatchAt(key, at);
    assert FindFrom(key, 0) == Some(at);
  }

  /**
   A file that the runner wrote under a directory without timestamp-like parts is dated by the retention code with
   the second in which it was written, whatever its name has before the timestamp, if no match begins there.
   */
  lemma WrittenKeyIsDated(path: string, front: string, t: Instant, rest: string)
    requires InRange(t) && NoStampIn(path) && NoStampBefore(front, Text(t))
    ensures ParseKey(FullPath(path, front + Text(t) + rest)) == Some(WholeSecond(t))
  {
    hide Text, WholeSecond, Parse, MatchAt, ParseKey;
    var dir := Directory(path);
    ParseOfText(t);
    StampLength(Text(t));
    var key, at := dir + "/" + (front + Text(t) + rest), |dir| + 1 + |front|;
    hide IsStamp;
    forall i: nat | i < at
      ensures !MatchAt(key, i)
    {
      NoEarlierMatch(path, dir, front, Text(t), rest, i);
    }
    assert key[at..at + 15] == Text(t);
    FirstMatchDates(key, at, Text(t));
  }

  lemma StampLength(s: string)
    requires IsStamp(s)
    ensures |s| == 15
  {
  }

  // ---- keys sort by time ----

  /** The byte order in which object stores list their keys. */
  ghost predicate Before(a: string, b: string)
  {
    exists k: nat :: Differs(a, b, k)
  }

  ghost predicate Differs(a: string, b: string, k: nat)
  {
    k < |b| && k <= |a| && a[..k] == b[..k] && (k < |a| ==> a[k] < b[k])
  }

  lemma BeforeIsAsymmetric(a: string, b: string)
    requires Before(a, b)
    ensures !Before(b, a)
  {
    var k: nat :| Differs(a, b, k);
    forall j: nat
      ensures !Differs(b, a, j)
    {
      if j < k {
        assert a[..k][j] == b[..k][j];
      } else if k < j < |a| && j <= |b| {
        assert a[..j][k] != b[..j][k];
      }
    }
  }

  lemma BeforeThenAnything(a: string, b: string, x: string, y: string)
    requires |a| == |b| && Before(a, b)
    ensures Before(a + x, b + y)
  {
    var k: nat :| Differs(a, b, k);
    assert (a + x)[..k] == a[..k] && (b + y)[..k] == b[..k];
    assert Differs(a + x, b + y, k);
  }

  lemma SameStart(a: string, x: string, y: string)
    requires Before(x, y)
    ensures Before(a + x, a + y)
  {
    var k: nat :| Differs(x, y, k);
    assert (a + x)[..|a| + k] == a + x[..k] && (a + y)[..|a| + k] == a + y[..k];
    assert Differs(a + x, a + y, |a| + k);
  }

  /** Digit texts of one length sort like the numbers they denote. */
  lemma {:induction false} DigitsSortByValue(a: string, b: string)
    requires AllDigits(a) && AllDigits(b) && |a| == |b| && Value(a) < Value(b)
    ensures Before(a, b)
  {
    var n := |a| - 1;
    var fa, fb := a[..n], b[..n];
    assert a == fa + [a[n]] && b == fb + [b[n]];
    assert IsDigit(a[n]) && IsDigit(b[n]);
    if Value(fa) < Value(fb) {
      DigitsSortByValue(fa, fb);
      BeforeThenAnything(fa, fb, [a[n]], [b[n]]);
    } else {
      assert Value(fa) == Value(fb);
      PadOfValue(fa);
      PadOfValue(fb);
      assert Differs(a, b, n);
    }
  }

  /** Fields of equal widths compare field by field. */
  lemma FieldByField(a: string, b: string, c: string, a': string, b': string, c': string)
    requires |a| == |a'| && |b| == |b'|
    requires Before(a, a') || (a == a' && (Before(b, b') || (b == b' && Before(c, c'))))
    ensures Before(a + b + c, a' + b' + c')
  {
    hide Before;
    if Before(a, a') {
      BeforeThenAnything(a, a', b, b');
      BeforeThenAnything(a + b, a' + b', c, c');
    } else if Before(b, b') {
      SameStart(a, b, b');
      BeforeThenAnything(a + b, a' + b', c, c');
    } else {
      SameStart(a + b, c, c');
    }
  }

  lemma DigitFieldsSort(a: string, b: string, c: string, a': string, b': string, c': string)
    requires AllDigits(a) && AllDigits(b) && AllDigits(c) && AllDigits(a') && AllDigits(b') && AllDigits(c')
    requires |a| == |a'| && |b| == |b'| && |c| == |c'|
    requires Value(a) < Value(a') || (a == a' && (Value(b) < Value(b') || (b == b' && Value(c) < Value(c'))))
    ensures Before(a + b + c, a' + b' + c')
  {
    hide Before, AllDigits;
    if Value(a) < Value(a') {
      DigitsSortByValue(a, a');
    } else if Value(b) < Value(b') {
      DigitsSortByValue(b, b');
    } else {
      DigitsSortByValue(c, c');
    }
    FieldByField(a, b, c, a', b', c');
  }

  lemma DatesSort(d: int, e: int)
    requires d < e && 0 <= YearOf(d) <= 9999 && 0 <= YearOf(e) <= 9999
    ensures Before(DateDigits(d), DateDigits(e))
  {
    hide Before, AllDigits, MonthStart, MonthOf;
    MonthsInOrder(d, e);
    FourDigits(YearOf(d));
    FourDigits(YearOf(e));
    PairOfTwoDigits(MonthInYear(d), MonthInYear(e));
    PairOfTwoDigits(DayInMonth(d), DayInMonth(e));
    ValueOfPad(YearOf(d), 4);
    ValueOfPad(YearOf(e), 4);
    DigitFieldsSort(Pad(YearOf(d), 4), Pad(MonthInYear(d), 2), Pad(DayInMonth(d), 2),
                    Pad(YearOf(e), 4), Pad(MonthInYear(e), 2), Pad(DayInMonth(e), 2));
  }

  lemma PairOfTwoDigits(m: nat, n: nat)
    requires m < 100 && n < 100
    ensures |Pad(m, 2)| == 2 == |Pad(n, 2)| && Value(Pad(m, 2)) == m && Value(Pad(n, 2)) == n
  {
    TwoDigits(m);
    TwoDigits(n);
    ValueOfPad(m, 2);
    ValueOfPad(n, 2);
  }

  lemma ClocksSort(s: nat, u: nat)
    requires s < u < 86_400
    ensures Before(ClockDigits(s), ClockDigits(u))
  {
    hide Before, AllDigits, Pad, Value;
    PairOfTwoDigits(s / 3600, u / 3600);
    PairOfTwoDigits(s / 60 % 60, u / 60 % 60);
    PairOfTwoDigits(s % 60, u % 60);
    ClockFieldsSort(s, u);
    DigitFieldsSort(Pad(s / 3600, 2), Pad(s / 60 % 60, 2), Pad(s % 60, 2),
                    Pad(u / 3600, 2), Pad(u / 60 % 60, 2), Pad(u % 60, 2));
  }

  lemma ClockFieldsSort(s: nat, u: nat)
    requires s < u < 86_400
    ensures s / 3600 <= u / 3600 && (s / 3600 == u / 3600 ==> s / 60 % 60 <= u / 60 % 60)
    ensures s / 3600 == u / 3600 && s / 60 % 60 == u / 60 % 60 ==> s % 60 < u % 60
  {
    ClockParts(s);
    ClockParts(u);
  }

  lemma TextsSort(t: Instant, u: Instant)
    requires InRange(t) && InRange(u) && WholeSecond(t) < WholeSecond(u)
    ensures Before(Text(t), Text(u))
  {
    hide DateDigits, ClockDigits, Before, YearOf, WholeSecond, DayOf, Clock;
    WholeSecondParts(t);
    WholeSecondParts(u);
    TextShape(t);
    TextShape(u);
    var x, y := "-" + ClockDigits(Clock(t)), "-" + ClockDigits(Clock(u));
    assert Text(t) == DateDigits(DayOf(t)) + x && Text(u) == DateDigits(DayOf(u)) + y;
    if DayOf(t) < DayOf(u) {
      DatesSort(DayOf(t), DayOf(u));
      BeforeThenAnything(DateDigits(DayOf(t)), DateDigits(DayOf(u)), x, y);
    } else {
      assert DayOf(t) == DayOf(u) && Clock(t) < Clock(u);
      ClocksSort(Clock(t), Clock(u));
      SameStart("-", ClockDigits(Clock(t)), ClockDigits(Clock(u)));
      SameStart(DateDigits(DayOf(t)), x, y);
    }
  }

  /** Under one directory and after one text, keys written in different seconds are listed in the order of writing. */
  lemma KeyOrderIsTimeOrder(dir: string, front: string, t: Instant, x: string, u: Instant, y: string)
    requires InRange(t) && InRange(u) && WholeSecond(t) != WholeSecond(u)
    ensures Before(FullPath(dir, front + Text(t) + x), FullPath(dir, front + Text(u) + y))
            <==> WholeSecond(t) < WholeSecond(u)
  {
    hide Text, Before, WholeSecond;
    if WholeSecond(t) < WholeSecond(u) {
      KeysSort(dir, front, t, x, u, y);
    } else {
      KeysSort(dir, front, u, y, t, x);
      BeforeIsAsymmetric(FullPath(dir, front + Text(u) + y), FullPath(dir, front + Text(t) + x));
    }
  }

  lemma InOneDirectory(dir: string, front: string, a: string, x: string, b: string, y: string)
    requires |a| == |b| && Before(a, b)
    ensures Before(dir + "/" + (front + a + x), dir + "/" + (front + b + y))
  {
    hide Before;
    BeforeThenAnything(a, b, x, y);
    SameStart(dir + "/" + front, a + x, b + y);
    assert dir + "/" + front + (a + x) == dir + "/" + (front + a + x);
    assert dir + "/" + front + (b + y) == dir + "/" + (front + b + y);
  }

  lemma KeysSort(dir: string, front: string, t: Instant, x: string, u: Instant, y: string)
    requires InRange(t) && InRange(u) && WholeSecond(t) < WholeSecond(u)
    ensures Before(FullPath(dir, front + Text(t) + x), FullPath(dir, front + Text(u) + y))
  {
    hide Text, Before, WholeSecond, IsStamp, YearOf, DayOf, Directory;
    TextShape(t);
    TextShape(u);
    StampLength(Text(t));
    StampLength(Text(u));
    TextsSort(t, u);
    InOneDirectory(Directory(dir), front, Text(t), x, Text(u), y);
  }
}
