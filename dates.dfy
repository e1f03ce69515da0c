/**
 * Dates as the client reads them. An instant is an integer count of
 * milliseconds since 1970-01-01T00:00:00Z (what `getTime()` returns).
 * `ParseInstant` stands for `new Date(s)` on the ECMAScript date-time string
 * format; `None` is the invalid date whose time value is `NaN`, and every
 * `<`, `<=`, `>`, `>=` against it is false. Time zones are not modelled: a
 * date-time without an offset is read as UTC.
 */
module Dates {
  import opened Wrappers
  import opened Text

  const MsPerSecond: int := 1000
  const MsPerMinute: int := 60 * MsPerSecond
  const MsPerHour: int := 60 * MsPerMinute
  const MsPerDay: int := 24 * MsPerHour

  predicate IsLeapYear(y: int) {
    (y % 4 == 0 && y % 100 != 0) || y % 400 == 0
  }

  function DaysInMonth(y: int, m: int): (n: int)
    requires 1 <= m <= 12
    ensures 28 <= n <= 31
  {
    if m == 2 then (if IsLeapYear(y) then 29 else 28)
    else if m == 4 || m == 6 || m == 9 || m == 11 then 30
    else 31
  }

  /**
   * The day number (days since 1970-01-01) of year `y`, month `m` (1-12),
   * day `d` in the proleptic Gregorian calendar. Dafny's `/` and `%` with a
   * positive divisor round down, which is what the era arithmetic needs.
   */
  function DaysFromCivil(y: int, m: int, d: int): int
    requires 1 <= m <= 12
  {
    var y' := if m <= 2 then y - 1 else y;
    var era := y' / 400;
    var yoe := y' - era * 400;
    var mp := (m + 9) % 12;
    var doy := (153 * mp + 2) / 5 + d - 1;
    var doe := yoe * 365 + yoe / 4 - yoe / 100 + doy;
    era * 146097 + doe - 719468
  }

  /** The calendar date (year, month, day) of a day number; inverse of `DaysFromCivil`. */
  function CivilFromDays(z: int): (int, int, int) {
    var z' := z + 719468;
    var era := z' / 146097;
    var doe := z' - era * 146097;
    var yoe := (doe - doe / 1460 + doe / 36524 - doe / 146096) / 365;
    var doy := doe - (365 * yoe + yoe / 4 - yoe / 100);
    var mp := (5 * doy + 2) / 153;
    var d := doy - (153 * mp + 2) / 5 + 1;
    var m := if mp < 10 then mp + 3 else mp - 9;
    var y := yoe + era * 400;
    (if m <= 2 then y + 1 else y, m, d)
  }

  /** The `n` characters at `s[i..i + n]` read as a number, if they are all digits. */
  function FixedDigits(s: string, i: nat, n: nat): Option<nat> {
    if i + n <= |s| && AllDigits(s[i..i + n]) then Some(DigitsValue(s[i..i + n])) else None
  }

  /**
   * The UTC offset suffix of a date-time: nothing or `Z` (offset 0), or
   * `+HH:mm` / `-HH:mm`. The result is the offset in milliseconds.
   */
  function ParseOffset(z: string): Option<int> {
    if z == "" || z == "Z" then Some(0)
    else if |z| == 6 && (z[0] == '+' || z[0] == '-') && z[3] == ':' then
      match (FixedDigits(z, 1, 2), FixedDigits(z, 4, 2))
      case (Some(hh), Some(mm)) =>
        if hh <= 23 && mm <= 59 then
          var off := hh * MsPerHour + mm * MsPerMinute;
          Some(if z[0] == '+' then off else -off)
        else None
      case _ => None
    else None
  }

  /**
   * The time part after the date: empty, or `THH:mm`, `THH:mm:ss` or
   * `THH:mm:ss.sss` followed by an optional offset. The result is the
   * milliseconds since the start of the UTC day (it may leave [0, MsPerDay)
   * when an offset applies).
   */
  function ParseTimeOfDay(t: string): Option<int> {
    if t == "" then Some(0)
    else if |t| >= 6 && t[0] == 'T' && t[3] == ':' then
      match (FixedDigits(t, 1, 2), FixedDigits(t, 4, 2))
      case (Some(hh), Some(mi)) =>
        var hasSec := |t| >= 9 && t[6] == ':' && FixedDigits(t, 7, 2).Some?;
        var ss := if hasSec then FixedDigits(t, 7, 2).value else 0;
        var afterSec := if hasSec then 9 else 6;
        var hasMs := hasSec && |t| >= 13 && t[9] == '.' && FixedDigits(t, 10, 3).Some?;
        var ms := if hasMs then FixedDigits(t, 10, 3).value else 0;
        var afterMs := if hasMs then 13 else afterSec;
        if hh > 23 || mi > 59 || ss > 59 then None
        else
          (match ParseOffset(t[afterMs..])
           case Some(off) => Some(hh * MsPerHour + mi * MsPerMinute + ss * MsPerSecond + ms - off)
           case None => None)
      case _ => None
    else None
  }

  /**
   * `new Date(s).getTime()` for the ECMAScript date-time string format
   * `YYYY`, `YYYY-MM` or `YYYY-MM-DD`, optionally followed by a time part.
   * A month or day out of range, or any other text, is the invalid date.
   */
  function ParseInstant(s: string): Option<int> {
    match FixedDigits(s, 0, 4)
    case None => None
    case Some(y) =>
      var hasMonth := |s| >= 7 && s[4] == '-' && FixedDigits(s, 5, 2).Some?;
      var m := if hasMonth then FixedDigits(s, 5, 2).value else 1;
      var hasDay := hasMonth && |s| >= 10 && s[7] == '-' && FixedDigits(s, 8, 2).Some?;
      var d := if hasDay then FixedDigits(s, 8, 2).value else 1;
      var afterDate := if hasDay then 10 else if hasMonth then 7 else 4;
      if m < 1 || m > 12 || d < 1 || d > DaysInMonth(y, m) then None
      else
        match ParseTimeOfDay(s[afterDate..])
        case Some(t) => Some(DaysFromCivil(y, m, d) * MsPerDay + t)
        case None => None
  }

  lemma DateSlices(y: string, m: string, d: string)
    requires |y| == 4 && |m| == 2 && |d| == 2
    ensures var s := y + "-" + m + "-" + d;
      |s| == 10 && s[0..4] == y && s[4] == '-' && s[5..7] == m && s[7] == '-' && s[8..10] == d && s[10..] == ""
  {
  }

  /** A plain `YYYY-MM-DD` date of the calendar parses to the midnight (UTC) that starts that day. */
  lemma ParseCalendarDate(y: string, m: string, d: string)
    requires |y| == 4 && |m| == 2 && |d| == 2 && AllDigits(y) && AllDigits(m) && AllDigits(d)
    requires 1 <= DigitsValue(m) <= 12 && 1 <= DigitsValue(d) <= DaysInMonth(DigitsValue(y), DigitsValue(m))
    ensures ParseInstant(y + "-" + m + "-" + d) ==
      Some(DaysFromCivil(DigitsValue(y), DigitsValue(m), DigitsValue(d)) * MsPerDay)
  {
    var s := y + "-" + m + "-" + d;
    DateSlices(y, m, d);
    assert ParseTimeOfDay(s[10..]) == Some(0);
    assert FixedDigits(s, 0, 4) == Some(DigitsValue(y));
    assert FixedDigits(s, 5, 2) == Some(DigitsValue(m));
    assert FixedDigits(s, 8, 2) == Some(DigitsValue(d));
  }

  /** `isValidDate` (App.tsx): defined, non-empty, and not the invalid date. */
  predicate IsValidDate(s: Option<string>) {
    s.Some? && s.value != "" && ParseInstant(s.value).Some?
  }

  /** `a < b` on two parsed dates: false when either is invalid, as with `NaN`. */
  predicate Before(a: Option<int>, b: int) {
    a.Some? && a.value < b
  }

  /** `a >= b` on two parsed dates: false when either is invalid. */
  predicate NotBefore(a: Option<int>, b: int) {
    a.Some? && a.value >= b
  }

  /** For a date that parses, exactly one of `<` and `>=` holds; for the invalid date neither. */
  lemma BeforeOrNotBefore(a: Option<int>, b: int)
    ensures a.Some? ==> (Before(a, b) <==> !NotBefore(a, b))
    ensures a.None? ==> !Before(a, b) && !NotBefore(a, b)
  {
  }

  /** `d.setDate(d.getDate() + n)` without time-zone adjustment: `n` whole days later. */
  function AddDays(t: int, n: int): int {
    t + n * MsPerDay
  }

  /** `n` zero-padded to at least `w` digits. */
  function Pad(n: nat, w: nat): (s: string)
    ensures |s| >= w && AllDigits(s)
    ensures |NatToString(n)| >= w ==> s == NatToString(n)
  {
    var digits := NatToString(n);
    if |digits| >= w then digits else seq(w - |digits|, _ => '0') + digits
  }

  /**
   * `new Date(t).toISOString().slice(0, 10)`: the UTC calendar date of an
   * instant as `YYYY-MM-DD`, or the first ten characters of the expanded
   * `+YYYYYY-MM-DD` form for years outside 0..9999.
   */
  function IsoDate(t: int): string {
    var (y, m, d) := CivilFromDays(t / MsPerDay);
    var mm := if m >= 0 then Pad(m, 2) else "00";
    var dd := if d >= 0 then Pad(d, 2) else "00";
    if 0 <= y <= 9999 then Pad(y, 4) + "-" + mm + "-" + dd
    else Prefix((if y < 0 then "-" else "+") + Pad(if y < 0 then -y else y, 6) + "-" + mm + "-" + dd, 10)
  }

  /** `date.getDay()`: 0 for Sunday; 1970-01-01 was a Thursday. */
  function DayOfWeek(y: int, m: int, d: int): (w: int)
    requires 1 <= m <= 12
    ensures 0 <= w < 7
  {
    (DaysFromCivil(y, m, d) + 4) % 7
  }

  /** Day number 0 is 1970-01-01, and it was a Thursday. */
  lemma EpochIsThursday()
    ensures DaysFromCivil(1970, 1, 1) == 0
    ensures DayOfWeek(1970, 1, 1) == 4
  {
    assert (1969 / 400) * 400 == 1600;
  }

  /** The next day of a month has the next day number and the next weekday. */
  lemma NextDay(y: int, m: int, d: int)
    requires 1 <= m <= 12
    ensures DaysFromCivil(y, m, d + 1) == DaysFromCivil(y, m, d) + 1
    ensures DayOfWeek(y, m, d + 1) == (DayOfWeek(y, m, d) + 1) % 7
  {
    CivilFromMarch(y, m, d);
    CivilFromMarch(y, m, d + 1);
    ModAdd(DaysFromCivil(y, m, d) + 4, 1);
  }

  /** The first day of the month after month `m` of year `y`. */
  function NextMonthStart(y: int, m: int): int
    requires 1 <= m <= 12
  {
    if m < 12 then DaysFromCivil(y, m + 1, 1) else DaysFromCivil(y + 1, 1, 1)
  }

  /** The day number of March 1 of year `y`, the first day of `y` in the era arithmetic of `DaysFromCivil`. */
  function MarchFirst(y: int): int {
    var era := y / 400;
    var yoe := y - era * 400;
    era * 146097 + yoe * 365 + yoe / 4 - yoe / 100 - 719468
  }

  /** How many days after March 1 each month starts, January and February counted in the year before. */
  const MonthStarts: seq<int> := [306, 337, 0, 31, 61, 92, 122, 153, 184, 214, 245, 275]

  lemma MonthIndex(m: int)
    requires 1 <= m <= 12
    ensures (m + 9) % 12 == if m >= 3 then m - 3 else m + 9
  {
  }

  /** A day number is the March 1 that opens its year plus the month's start plus the day. */
  lemma CivilFromMarch(y: int, m: int, d: int)
    requires 1 <= m <= 12
    ensures DaysFromCivil(y, m, d) == MarchFirst(if m <= 2 then y - 1 else y) + MonthStarts[m - 1] + d - 1
  {
    MonthIndex(m);
  }

  /** Consecutive month starts differ by the length of the earlier month, February aside. */
  lemma MonthStartsStep(m: int)
    requires 1 <= m <= 11 && m != 2
    ensures MonthStarts[m] - MonthStarts[m - 1] == DaysInMonth(0, m)
  {
  }

  lemma ModShift4(k: int, a: int)
    ensures (4 * k + a) % 4 == a % 4
  {
    assert (4 * k + a) / 4 == k + a / 4;
  }

  lemma ModShift100(k: int, a: int)
    ensures (100 * k + a) % 100 == a % 100
  {
    assert (100 * k + a) / 100 == k + a / 100;
  }

  lemma ModShift400(k: int, a: int)
    ensures (400 * k + a) % 400 == a % 400
  {
    assert (400 * k + a) / 400 == k + a / 400;
  }

  /** Within an era the leap-year test reads off the year of the era. */
  lemma LeapInEra(y: int, era: int, yoe: int)
    requires y == era * 400 + yoe && 0 < yoe < 400
    ensures IsLeapYear(y) <==> yoe % 4 == 0 && yoe % 100 != 0
  {
    ModShift4(era * 100, yoe);
    ModShift100(era * 4, yoe);
    ModShift400(era, yoe);
  }

  lemma DivStep(k: int)
    requires 0 < k
    ensures k / 4 - (k - 1) / 4 == (if k % 4 == 0 then 1 else 0)
    ensures k / 100 - (k - 1) / 100 == (if k % 100 == 0 then 1 else 0)
  {
  }

  /** From March 1 of `y` to March 1 of `y + 1` there are 366 days when `y + 1` is a leap year, 365 otherwise. */
  lemma YearFromMarch(y: int)
    ensures MarchFirst(y + 1) - MarchFirst(y) == if IsLeapYear(y + 1) then 366 else 365
  {
    var era := y / 400;
    var yoe := y - era * 400;
    if yoe < 399 {
      assert (y + 1) / 400 == era;
      LeapInEra(y + 1, era, yoe + 1);
      DivStep(yoe + 1);
    } else {
      assert y + 1 == (era + 1) * 400;
      assert (y + 1) / 400 == era + 1;
    }
  }

  /** February has as many days as lie between its first day and March 1. */
  lemma FebruaryLength(y: int)
    ensures DaysFromCivil(y, 2, 1) + DaysInMonth(y, 2) == DaysFromCivil(y, 3, 1)
  {
    CivilFromMarch(y, 2, 1);
    CivilFromMarch(y, 3, 1);
    YearFromMarch(y - 1);
  }

  /** `DaysInMonth` days after the first of a month comes the first of the next. */
  lemma MonthLength(y: int, m: int)
    requires 1 <= m <= 12
    ensures DaysFromCivil(y, m, 1) + DaysInMonth(y, m) == NextMonthStart(y, m)
  {
    if m == 2 {
      FebruaryLength(y);
    } else if m == 12 {
      CivilFromMarch(y, m, 1);
      CivilFromMarch(y + 1, 1, 1);
    } else {
      CivilFromMarch(y, m, 1);
      CivilFromMarch(y, m + 1, 1);
      MonthStartsStep(m);
    }
  }

  /**
   * `new Date(year, month + 1, 0)`, day 0 of the next month, is the last
   * day of this one: the day numbered `DaysInMonth(y, m)` directly precedes
   * the first of the next month.
   */
  lemma LastDayOfMonth(y: int, m: int)
    requires 1 <= m <= 12
    ensures DaysFromCivil(y, m, DaysInMonth(y, m)) + 1 == NextMonthStart(y, m)
  {
    MonthLength(y, m);
    CivilFromMarch(y, m, 1);
    CivilFromMarch(y, m, DaysInMonth(y, m));
  }

  lemma ModAdd(a: int, n: int)
    ensures (a + n) % 7 == (a % 7 + n) % 7
  {
  }

  /** The next month starts `DaysInMonth` weekdays after this one. */
  lemma NextMonthWeekday(y: int, m: int)
    requires 1 <= m <= 12
    ensures (NextMonthStart(y, m) + 4) % 7 == (DayOfWeek(y, m, 1) + DaysInMonth(y, m)) % 7
  {
    MonthLength(y, m);
    ModAdd(DaysFromCivil(y, m, 1) + 4, DaysInMonth(y, m));
  }

  /** `getMonth` in the analytics view: the first seven characters, `YYYY-MM` for an ISO date. */
  function MonthKey(s: string): string {
    Prefix(s, 7)
  }
}
