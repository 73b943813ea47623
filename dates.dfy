/**
 * Due-date tokens, calendar dates and the timestamps the cache stores.
 *
 * A due-date token is what the pattern `\[\d{2}/\d{2}/\d{2}\]` matches: a
 * bracket, two digits, a slash, two digits, a slash, two digits, a bracket.
 * It is read as `[%d/%m/%y]`. The cache's `last_update` is written with
 * `%Y-%m-%dT%H:%M:%SZ` and read back with the same format.
 */
module Dates {
  import opened Wrappers

  predicate IsDigit(c: char) {
    '0' <= c <= '9'
  }

  function DigitValue(c: char): nat
    requires IsDigit(c)
  {
    c as int - '0' as int
  }

  function DigitChar(n: nat): (c: char)
    requires n < 10
    ensures IsDigit(c) && DigitValue(c) == n
  {
    ('0' as int + n) as char
  }

  // ---------------------------------------------------------------------------
  // Due-date tokens

  const TokenLength := 10

  predicate IsToken(t: string) {
    && |t| == TokenLength
    && t[0] == '[' && IsDigit(t[1]) && IsDigit(t[2])
    && t[3] == '/' && IsDigit(t[4]) && IsDigit(t[5])
    && t[6] == '/' && IsDigit(t[7]) && IsDigit(t[8])
    && t[9] == ']'
  }

  /** A token starts at position `i` of `s`. */
  predicate TokenAt(s: string, i: int) {
    0 <= i && i + TokenLength <= |s| && IsToken(s[i..i + TokenLength])
  }

  /** `re.search(DATE_REGEX, s)` succeeds. */
  predicate HasToken(s: string): (b: bool)
    ensures b ==> |s| >= TokenLength
  {
    exists i | 0 <= i <= |s| - TokenLength :: TokenAt(s, i)
  }

  /**
   * `re.findall(DATE_REGEX, s)`: scan from the left; after a match the scan
   * resumes just past it, otherwise one character further on.
   */
  function FindAll(s: string): (r: seq<string>)
    ensures forall i :: 0 <= i < |r| ==> IsToken(r[i])
    decreases |s|
  {
    if |s| < TokenLength then []
    else if IsToken(s[..TokenLength]) then [s[..TokenLength]] + FindAll(s[TokenLength..])
    else FindAll(s[1..])
  }

  /** Reference definition: the token at every start position, left to right. */
  ghost function TokensEverywhere(s: string): seq<string>
    decreases |s|
  {
    if |s| < TokenLength then []
    else (if IsToken(s[..TokenLength]) then [s[..TokenLength]] else []) + TokensEverywhere(s[1..])
  }

  lemma SkipNonBracket(u: string)
    requires u != [] && u[0] != '['
    ensures TokensEverywhere(u) == TokensEverywhere(u[1..])
  {
  }

  lemma {:induction false} SkipInsideToken(s: string, j: nat)
    requires |s| >= TokenLength && IsToken(s[..TokenLength])
    requires 1 <= j <= TokenLength
    ensures TokensEverywhere(s[1..]) == TokensEverywhere(s[j..])
    decreases j
  {
    if j > 1 {
      SkipInsideToken(s, j - 1);
      assert s[j - 1..][0] == s[..TokenLength][j - 1];
      SkipNonBracket(s[j - 1..]);
      assert s[j - 1..][1..] == s[j..];
    }
  }

  /** Tokens never overlap, so skipping past a match loses no token. */
  lemma {:induction false} FindAllIsTokensEverywhere(s: string)
    ensures FindAll(s) == TokensEverywhere(s)
    decreases |s|
  {
    if |s| >= TokenLength {
      if IsToken(s[..TokenLength]) {
        FindAllIsTokensEverywhere(s[TokenLength..]);
        SkipInsideToken(s, TokenLength);
      } else {
        FindAllIsTokensEverywhere(s[1..]);
      }
    }
  }

  /** `p` is the leftmost position where a token starts. */
  ghost predicate LeftmostToken(s: string, p: int) {
    TokenAt(s, p) && forall q :: 0 <= q < p ==> !TokenAt(s, q)
  }

  lemma TokenAtShift(s: string, i: int)
    requires s != [] && 0 <= i
    ensures TokenAt(s[1..], i) <==> TokenAt(s, i + 1)
  {
    if 0 <= i && i + TokenLength <= |s[1..]| {
      assert s[1..][i..i + TokenLength] == s[i + 1..i + 1 + TokenLength];
    }
  }

  lemma {:induction false} TokensEverywhereNonEmpty(s: string)
    ensures TokensEverywhere(s) != [] <==> HasToken(s)
    decreases |s|
  {
    if |s| >= TokenLength {
      if IsToken(s[..TokenLength]) {
        assert TokenAt(s, 0);
      } else {
        TokensEverywhereNonEmpty(s[1..]);
        if HasToken(s) {
          var i :| 0 <= i <= |s| - TokenLength && TokenAt(s, i);
          assert i != 0;
          TokenAtShift(s, i - 1);
          assert TokenAt(s[1..], i - 1);
        }
        if HasToken(s[1..]) {
          var i :| 0 <= i <= |s[1..]| - TokenLength && TokenAt(s[1..], i);
          TokenAtShift(s, i);
        }
      }
    } else {
      assert !HasToken(s);
    }
  }

  lemma {:induction false} TokensEverywhereLeftmost(s: string)
    requires TokensEverywhere(s) != []
    ensures exists p :: LeftmostToken(s, p) && TokensEverywhere(s)[0] == s[p..p + TokenLength]
    decreases |s|
  {
    if IsToken(s[..TokenLength]) {
      assert LeftmostToken(s, 0);
    } else {
      TokensEverywhereLeftmost(s[1..]);
      var p :| LeftmostToken(s[1..], p) && TokensEverywhere(s[1..])[0] == s[1..][p..p + TokenLength];
      TokenAtShift(s, p);
      forall q | 0 <= q < p + 1 ensures !TokenAt(s, q) {
        if q > 0 { TokenAtShift(s, q - 1); }
      }
      assert s[1..][p..p + TokenLength] == s[p + 1..p + 1 + TokenLength];
      assert LeftmostToken(s, p + 1);
    }
  }

  /**
   * What the cache relies on: `re.findall` finds something exactly when
   * `re.search` does, and its first match is the leftmost token of the text.
   */
  lemma FindAllFirst(s: string)
    ensures FindAll(s) != [] <==> HasToken(s)
    ensures FindAll(s) != [] ==>
      exists p :: LeftmostToken(s, p) && FindAll(s)[0] == s[p..p + TokenLength]
  {
    FindAllIsTokensEverywhere(s);
    TokensEverywhereNonEmpty(s);
    if FindAll(s) != [] {
      TokensEverywhereLeftmost(s);
    }
  }

  // ---------------------------------------------------------------------------
  // Calendar dates

  datatype Date = Date(year: int, month: int, day: int)

  /** `%y`: 69..99 mean 1969..1999, 00..68 mean 2000..2068. */
  function TwoDigitYear(yy: nat): (y: int)
    requires yy < 100
    ensures 1969 <= y <= 2068 && y % 100 == yy
  {
    if yy <= 68 then 2000 + yy else 1900 + yy
  }

  predicate IsLeap(y: int) {
    y % 4 == 0 && (y % 100 != 0 || y % 400 == 0)
  }

  function DaysInMonth(y: int, m: int): int
    requires 1 <= m <= 12
  {
    if m == 2 then (if IsLeap(y) then 29 else 28)
    else if m == 4 || m == 6 || m == 9 || m == 11 then 30
    else 31
  }

  /**
   * A real calendar day; `strptime` raises on any other. (Python's dates also
   * stop at year 9999; where that matters it is required separately.)
   */
  predicate ValidDate(d: Date) {
    1 <= d.year && 1 <= d.month <= 12 && 1 <= d.day <= DaysInMonth(d.year, d.month)
  }

  /** Chronological order, that is, lexicographic on (year, month, day). */
  predicate DateLe(a: Date, b: Date) {
    a.year < b.year
    || (a.year == b.year && (a.month < b.month || (a.month == b.month && a.day <= b.day)))
  }

  lemma DateLeTotalOrder(a: Date, b: Date, c: Date)
    ensures DateLe(a, a)
    ensures DateLe(a, b) || DateLe(b, a)
    ensures DateLe(a, b) && DateLe(b, a) ==> a == b
    ensures DateLe(a, b) && DateLe(b, c) ==> DateLe(a, c)
  {
  }

  function TwoDigits(c1: char, c2: char): nat
    requires IsDigit(c1) && IsDigit(c2)
  {
    10 * DigitValue(c1) + DigitValue(c2)
  }

  /** `datetime.strptime(t, "[%d/%m/%y]")`, read field by field. */
  function TokenDate(t: string): (d: Date)
    requires IsToken(t)
    ensures 1969 <= d.year <= 2068 && 0 <= d.month < 100 && 0 <= d.day < 100
  {
    Date(TwoDigitYear(TwoDigits(t[7], t[8])), TwoDigits(t[4], t[5]), TwoDigits(t[1], t[2]))
  }

  /** The day after `d`. */
  function NextDay(d: Date): (r: Date)
    requires ValidDate(d)
    ensures ValidDate(r) && DateLe(d, r) && d != r
  {
    if d.day < DaysInMonth(d.year, d.month) then Date(d.year, d.month, d.day + 1)
    else if d.month < 12 then Date(d.year, d.month + 1, 1)
    else Date(d.year + 1, 1, 1)
  }

  /** The date `n` days after `d` (the date part of `now + timedelta(days=n)`). */
  function AddDays(d: Date, n: nat): (r: Date)
    requires ValidDate(d)
    ensures ValidDate(r) && DateLe(d, r)
    ensures n > 0 ==> d != r
    decreases n
  {
    if n == 0 then d else AddDays(NextDay(d), n - 1)
  }

  /** The `[%d/%m/%y]` text of a date, as `strftime` writes it. */
  function FormatToken(d: Date): string
    requires 0 <= d.day < 100 && 0 <= d.month < 100 && 0 <= d.year
  {
    "[" + Pad2(d.day) + "/" + Pad2(d.month) + "/" + Pad2(d.year % 100) + "]"
  }

  lemma TwoDigitsPad2(n: int)
    requires 0 <= n < 100
    ensures TwoDigits(Pad2(n)[0], Pad2(n)[1]) == n
  {
  }

  lemma Pad2TwoDigits(c1: char, c2: char)
    requires IsDigit(c1) && IsDigit(c2)
    ensures Pad2(TwoDigits(c1, c2)) == [c1, c2]
  {
    var n := TwoDigits(c1, c2);
    assert n / 10 == DigitValue(c1) && n % 10 == DigitValue(c2);
  }

  lemma FormatTokenFields(d: Date)
    requires 0 <= d.day < 100 && 0 <= d.month < 100 && 0 <= d.year
    ensures var f := FormatToken(d);
      && |f| == TokenLength && f[0] == '[' && f[3] == '/' && f[6] == '/' && f[9] == ']'
      && f[1..3] == Pad2(d.day) && f[4..6] == Pad2(d.month) && f[7..9] == Pad2(d.year % 100)
  {
  }

  /**
   * Reading a token as `[%d/%m/%y]`: the first field is the day, the second the
   * month and the third the year within 1969..2068, so writing a date of that
   * century and reading it back gives the date.
   */
  lemma TokenDateOfFormat(d: Date)
    requires 1969 <= d.year <= 2068 && 0 <= d.day < 100 && 0 <= d.month < 100
    ensures IsToken(FormatToken(d)) && TokenDate(FormatToken(d)) == d
  {
    var f := FormatToken(d);
    FormatTokenFields(d);
    assert f[1] == Pad2(d.day)[0] && f[2] == Pad2(d.day)[1];
    assert f[4] == Pad2(d.month)[0] && f[5] == Pad2(d.month)[1];
    assert f[7] == Pad2(d.year % 100)[0] && f[8] == Pad2(d.year % 100)[1];
    TwoDigitsPad2(d.day);
    TwoDigitsPad2(d.month);
    TwoDigitsPad2(d.year % 100);
  }

  /** Every token is the text of the date it is read as: tokens and dates of the century correspond one to one. */
  lemma FormatOfTokenDate(t: string)
    requires IsToken(t)
    ensures FormatToken(TokenDate(t)) == t
  {
    var e := TokenDate(t);
    Pad2TwoDigits(t[1], t[2]);
    Pad2TwoDigits(t[4], t[5]);
    Pad2TwoDigits(t[7], t[8]);
    FormatTokenFields(e);
    var f := FormatToken(e);
    assert f[1..3] == [t[1], t[2]] && f[4..6] == [t[4], t[5]] && f[7..9] == [t[7], t[8]];
    assert forall i :: 0 <= i < TokenLength ==> f[i] == t[i] by {
      forall i | 0 <= i < TokenLength
        ensures f[i] == t[i]
      {
        if i == 1 || i == 2 { assert f[i] == f[1..3][i - 1]; }
        else if i == 4 || i == 5 { assert f[i] == f[4..6][i - 4]; }
        else if i == 7 || i == 8 { assert f[i] == f[7..9][i - 7]; }
      }
    }
  }

  // ---------------------------------------------------------------------------
  // Day numbers

  function YearLength(y: int): int {
    DaysBeforeMonth(y, 12) + DaysInMonth(y, 12)
  }

  /** The days of year `y` before the first of month `m`. */
  function DaysBeforeMonth(y: int, m: int): int
    requires 1 <= m <= 12
  {
    if m == 1 then 0 else DaysBeforeMonth(y, m - 1) + DaysInMonth(y, m - 1)
  }

  /** The days from 1 January of year 1 to 1 January of year `y`. */
  function DaysBeforeYear(y: int): int
    requires 1 <= y
  {
    if y == 1 then 0 else DaysBeforeYear(y - 1) + YearLength(y - 1)
  }

  /** `date.toordinal()`: 1 January of year 1 is day 1. */
  function DayNumber(d: Date): int
    requires ValidDate(d)
  {
    DaysBeforeYear(d.year) + DaysBeforeMonth(d.year, d.month) + d.day
  }

  lemma NextDayNumber(d: Date)
    requires ValidDate(d)
    ensures DayNumber(NextDay(d)) == DayNumber(d) + 1
  {
  }

  /** `d + timedelta(days=n)` is exactly `n` days later. */
  lemma {:induction false} AddDaysNumber(d: Date, n: nat)
    requires ValidDate(d)
    ensures DayNumber(AddDays(d, n)) == DayNumber(d) + n
    decreases n
  {
    if n > 0 {
      NextDayNumber(d);
      AddDaysNumber(NextDay(d), n - 1);
    }
  }

  lemma {:induction false} MonthsBefore(y: int, m: int, m': int)
    requires 1 <= m < m' <= 12
    ensures DaysBeforeMonth(y, m) + DaysInMonth(y, m) <= DaysBeforeMonth(y, m')
    decreases m'
  {
    if m' - 1 > m {
      MonthsBefore(y, m, m' - 1);
    }
  }

  lemma {:induction false} MonthsBeforeNonNegative(y: int, m: int)
    requires 1 <= m <= 12
    ensures 0 <= DaysBeforeMonth(y, m)
    decreases m
  {
    if m > 1 {
      MonthsBeforeNonNegative(y, m - 1);
    }
  }

  /** The days of a year are numbered after every earlier year's and before every later year's. */
  lemma WithinYear(d: Date)
    requires ValidDate(d)
    ensures DaysBeforeYear(d.year) < DayNumber(d) <= DaysBeforeYear(d.year + 1)
  {
    MonthsBeforeNonNegative(d.year, d.month);
    if d.month < 12 {
      MonthsBefore(d.year, d.month, 12);
    }
  }

  lemma {:induction false} YearsBefore(y: int, y': int)
    requires 1 <= y <= y'
    ensures DaysBeforeYear(y) <= DaysBeforeYear(y')
    decreases y' - y
  {
    if y < y' {
      YearsBefore(y, y' - 1);
      MonthsBeforeNonNegative(y' - 1, 12);
    }
  }

  lemma DayNumberMonotone(a: Date, b: Date)
    requires ValidDate(a) && ValidDate(b) && DateLe(a, b)
    ensures DayNumber(a) <= DayNumber(b)
  {
    if a.year < b.year {
      WithinYear(a);
      WithinYear(b);
      YearsBefore(a.year + 1, b.year);
    } else if a.month < b.month {
      MonthsBefore(a.year, a.month, b.month);
    }
  }

  /** The order of dates is the order of their day numbers. */
  lemma DateLeIffDayNumber(a: Date, b: Date)
    requires ValidDate(a) && ValidDate(b)
    ensures DateLe(a, b) <==> DayNumber(a) <= DayNumber(b)
    ensures a == b <==> DayNumber(a) == DayNumber(b)
  {
    DateLeTotalOrder(a, b, a);
    if DateLe(a, b) {
      DayNumberMonotone(a, b);
    }
    if DateLe(b, a) {
      DayNumberMonotone(b, a);
    }
    if a != b {
      if DateLe(a, b) {
        assert !DateLe(b, a);
        StrictlyEarlier(a, b);
      } else {
        StrictlyEarlier(b, a);
      }
    }
  }

  lemma StrictlyEarlier(a: Date, b: Date)
    requires ValidDate(a) && ValidDate(b) && DateLe(a, b) && a != b
    ensures DayNumber(a) < DayNumber(b)
  {
    if a.year < b.year {
      WithinYear(a);
      WithinYear(b);
      YearsBefore(a.year + 1, b.year);
    } else if a.month < b.month {
      MonthsBefore(a.year, a.month, b.month);
    }
  }

  /** No date lies strictly between a date and the next. */
  lemma NextDayAdjacent(d: Date, e: Date)
    requires ValidDate(d) && ValidDate(e) && DateLe(d, e) && DateLe(e, NextDay(d))
    ensures e == d || e == NextDay(d)
  {
    NextDayNumber(d);
    DateLeIffDayNumber(d, e);
    DateLeIffDayNumber(e, NextDay(d));
    if DayNumber(e) == DayNumber(d) {
      DateLeIffDayNumber(e, d);
    } else {
      DateLeIffDayNumber(e, NextDay(d));
    }
  }

  /** The horizon test: a date is at most `n` days after `d` exactly when its day number is. */
  lemma WithinDays(d: Date, n: nat, e: Date)
    requires ValidDate(d) && ValidDate(e)
    ensures DateLe(e, AddDays(d, n)) <==> DayNumber(e) <= DayNumber(d) + n
  {
    AddDaysNumber(d, n);
    DateLeIffDayNumber(e, AddDays(d, n));
  }

  // ---------------------------------------------------------------------------
  // Timestamps

  /** A wall-clock reading to the second, as the cache keeps it. */
  datatype Instant = Instant(year: int, month: int, day: int, hour: int, minute: int, second: int)

  const Epoch := Instant(1970, 1, 1, 0, 0, 0)

  /** In range for `datetime`. */
  predicate ValidInstant(t: Instant) {
    && 1 <= t.year <= 9999
    && ValidDate(Date(t.year, t.month, t.day))
    && 0 <= t.hour < 24 && 0 <= t.minute < 60 && 0 <= t.second < 60
  }

  /**
   * The two shapes `last_update` takes: a `datetime` object (at start-up and
   * after `load_project`) or the text `strftime("%Y-%m-%dT%H:%M:%SZ")` made of
   * it (after a fetch).
   */
  datatype Stamp = Clock(at: Instant) | Text(at: Instant)

  /** A reading `strftime("%Y")` prints with four digits. */
  predicate FourDigitYear(t: Instant) {
    1000 <= t.year
  }

  /** The text form is only ever made from a clock reading of this era. */
  predicate ValidStamp(s: Stamp) {
    ValidInstant(s.at) && (s.Text? ==> FourDigitYear(s.at))
  }

  function Pad2(n: int): (r: string)
    requires 0 <= n < 100
    ensures |r| == 2 && IsDigit(r[0]) && IsDigit(r[1])
  {
    [DigitChar(n / 10), DigitChar(n % 10)]
  }

  function Pad4(n: int): (r: string)
    requires 0 <= n < 10000
    ensures |r| == 4 && IsDigit(r[0]) && IsDigit(r[1]) && IsDigit(r[2]) && IsDigit(r[3])
  {
    Pad2(n / 100) + Pad2(n % 100)
  }

  /** `strftime("%Y-%m-%dT%H:%M:%SZ")`. */
  function FormatIso(t: Instant): (r: string)
    requires ValidInstant(t) && FourDigitYear(t)
    ensures |r| == 20
  {
    Pad4(t.year) + "-" + Pad2(t.month) + "-" + Pad2(t.day) + "T"
      + Pad2(t.hour) + ":" + Pad2(t.minute) + ":" + Pad2(t.second) + "Z"
  }

  /** `str(datetime)` for a reading without microseconds: `YYYY-MM-DD HH:MM:SS`, the year padded to four digits. */
  function FormatPlain(t: Instant): (r: string)
    requires ValidInstant(t)
    ensures |r| == 19
  {
    Pad4(t.year) + "-" + Pad2(t.month) + "-" + Pad2(t.day) + " "
      + Pad2(t.hour) + ":" + Pad2(t.minute) + ":" + Pad2(t.second)
  }

  /** The two texts of a time differ only in the separator and the trailing `Z`. */
  lemma PlainIsIsoWithSpace(t: Instant)
    requires ValidInstant(t) && FourDigitYear(t)
    ensures FormatPlain(t) == FormatIso(t)[..10] + " " + FormatIso(t)[11..19]
  {
  }

  /** How `last_update` reads when it is put into a query text with an f-string. */
  function Render(s: Stamp): (r: string)
    requires ValidStamp(s)
    ensures |r| == if s.Clock? then 19 else 20
    ensures r[10] == if s.Clock? then ' ' else 'T'
  {
    match s
    case Clock(t) => FormatPlain(t)
    case Text(t) => FormatIso(t)
  }

  predicate DigitsAt(s: string, i: nat, n: nat) {
    i + n <= |s| && forall k :: i <= k < i + n ==> IsDigit(s[k])
  }

  function DigitsValue(ds: string): nat
    requires forall k :: 0 <= k < |ds| ==> IsDigit(ds[k])
  {
    if ds == [] then 0 else 10 * DigitsValue(ds[..|ds| - 1]) + DigitValue(ds[|ds| - 1])
  }

  function Field(s: string, i: nat, n: nat): nat
    requires DigitsAt(s, i, n)
  {
    DigitsValue(s[i..i + n])
  }

  /** The separators and digit positions of `%Y-%m-%dT%H:%M:%SZ`. */
  predicate IsoShape(s: string) {
    && |s| == 20
    && DigitsAt(s, 0, 4) && s[4] == '-' && DigitsAt(s, 5, 2) && s[7] == '-'
    && DigitsAt(s, 8, 2) && s[10] == 'T' && DigitsAt(s, 11, 2) && s[13] == ':'
    && DigitsAt(s, 14, 2) && s[16] == ':' && DigitsAt(s, 17, 2) && s[19] == 'Z'
  }

  /** `datetime.strptime(s, "%Y-%m-%dT%H:%M:%SZ")`; `None` where it raises. */
  function ParseIso(s: string): (r: Option<Instant>)
    ensures r.Some? ==> ValidInstant(r.value)
  {
    if !IsoShape(s) then None
    else
      var t := Instant(Field(s, 0, 4), Field(s, 5, 2), Field(s, 8, 2),
                       Field(s, 11, 2), Field(s, 14, 2), Field(s, 17, 2));
      if ValidInstant(t) then Some(t) else None
  }

  lemma Pad2Value(n: int)
    requires 0 <= n < 100
    ensures DigitsValue(Pad2(n)) == n
  {
    var p := Pad2(n);
    assert p[..1] == [p[0]];
    assert DigitsValue(p[..1]) == DigitValue(p[0]);
  }

  lemma Pad4Value(n: int)
    requires 0 <= n < 10000
    ensures DigitsValue(Pad4(n)) == n
  {
    var p := Pad4(n);
    assert p[..3][..2] == p[..2] == Pad2(n / 100);
    assert p[..1] == [p[0]] && p[..2][..1] == p[..1];
    Pad2Value(n / 100);
    assert DigitsValue(p[..2]) == n / 100;
    assert DigitsValue(p[..3]) == 10 * (n / 100) + DigitValue(p[2]);
  }

  /** The second half of the cache's persistence: what `strftime` writes, `strptime` reads back. */
  lemma ParseFormatIso(t: Instant)
    requires ValidInstant(t) && FourDigitYear(t)
    ensures ParseIso(FormatIso(t)) == Some(t)
  {
    var s := FormatIso(t);
    assert s[0..4] == Pad4(t.year);
    assert s[5..7] == Pad2(t.month);
    assert s[8..10] == Pad2(t.day);
    assert s[11..13] == Pad2(t.hour);
    assert s[14..16] == Pad2(t.minute);
    assert s[17..19] == Pad2(t.second);
    Pad4Value(t.year);
    Pad2Value(t.month);
    Pad2Value(t.day);
    Pad2Value(t.hour);
    Pad2Value(t.minute);
    Pad2Value(t.second);
  }
}
