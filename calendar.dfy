/**
 * Calendar dates as the `Date` getters report them, the `YYYY-MM-DD` day
 * identifiers the journal and wellness cards key their documents by, and
 * instants in milliseconds with their day boundaries. Time zones and daylight
 * saving are not modelled: a day is always 86 400 000 ms and starts at a
 * multiple of that.
 */
module Calendar {
  import opened Wrappers
  import opened Text

  /** `getFullYear()`, `getMonth()` (0-based, as JavaScript has it) and `getDate()`. */
  datatype CalendarDate = CalendarDate(year: int, month: int, day: int)

  predicate ValidDate(d: CalendarDate) {
    0 <= d.month < 12 && 1 <= d.day <= 31
  }

  /** `${year}-${(month + 1).padStart(2, '0')}-${day.padStart(2, '0')}`. */
  function DayId(d: CalendarDate): string
    requires ValidDate(d)
  {
    IntToString(d.year) + "-" + PadStart2(NatToString(d.month + 1)) + "-" + PadStart2(NatToString(d.day))
  }

  /** Reads a day identifier back: the year before the last six characters, then `-MM-DD`. */
  function ParseDayId(s: string): Option<CalendarDate> {
    if |s| < 7 || s[|s| - 6] != '-' || s[|s| - 3] != '-' then None
    else ParseDayFields(s[..|s| - 6], s[|s| - 5..|s| - 3], s[|s| - 2..])
  }

  function ParseDayFields(y: string, mm: string, dd: string): Option<CalendarDate> {
    match ParseInt(y)
    case None => None
    case Some(year) =>
      if AllDigits(mm) && AllDigits(dd) && 1 <= DigitsValue(mm) <= 12 && 1 <= DigitsValue(dd) <= 31
      then Some(CalendarDate(year, DigitsValue(mm) - 1, DigitsValue(dd)))
      else None
  }

  lemma ParseDayIdOfPieces(y: string, mm: string, dd: string, year: int)
    requires ParseInt(y) == Some(year)
    requires |mm| == 2 && |dd| == 2 && AllDigits(mm) && AllDigits(dd)
    requires 1 <= DigitsValue(mm) <= 12 && 1 <= DigitsValue(dd) <= 31
    ensures ParseDayId(y + "-" + mm + "-" + dd) == Some(CalendarDate(year, DigitsValue(mm) - 1, DigitsValue(dd)))
  {
    assert |y| >= 1;
    DayIdSlices(y, mm, dd);
    ParseDayIdOfSlices(y + "-" + mm + "-" + dd, y, mm, dd);
    ParseDayFieldsOf(y, mm, dd, year);
  }

  lemma ParseDayIdOfSlices(s: string, y: string, mm: string, dd: string)
    requires |y| >= 1 && |s| == |y| + 6 && s[|s| - 6] == '-' && s[|s| - 3] == '-'
    requires s[..|s| - 6] == y && s[|s| - 5..|s| - 3] == mm && s[|s| - 2..] == dd
    ensures ParseDayId(s) == ParseDayFields(y, mm, dd)
  {
  }

  lemma ParseDayFieldsOf(y: string, mm: string, dd: string, year: int)
    requires ParseInt(y) == Some(year) && AllDigits(mm) && AllDigits(dd)
    requires 1 <= DigitsValue(mm) <= 12 && 1 <= DigitsValue(dd) <= 31
    ensures ParseDayFields(y, mm, dd) == Some(CalendarDate(year, DigitsValue(mm) - 1, DigitsValue(dd)))
  {
  }

  lemma DayIdSlices(y: string, mm: string, dd: string)
    requires |mm| == 2 && |dd| == 2
    ensures var s := y + "-" + mm + "-" + dd;
            && |s| == |y| + 6 && s[|s| - 6] == '-' && s[|s| - 3] == '-'
            && s[..|s| - 6] == y && s[|s| - 5..|s| - 3] == mm && s[|s| - 2..] == dd
  {
    var s := y + "-" + mm + "-" + dd;
    assert s[..|s| - 6] == y;
    assert s[|s| - 5..|s| - 3] == mm;
    assert s[|s| - 2..] == dd;
  }

  /** A day identifier names its date: the year, the 1-based month and the day are read back exactly. */
  lemma DayIdRoundTrip(d: CalendarDate)
    requires ValidDate(d)
    ensures ParseDayId(DayId(d)) == Some(d)
  {
    var y := IntToString(d.year);
    var mm := PadStart2(NatToString(d.month + 1));
    var dd := PadStart2(NatToString(d.day));
    DayIdFields(d);
    ParseDayIdOfPieces(y, mm, dd, d.year);
  }

  /** The three fields of a day identifier each read back as the date's field. */
  lemma DayIdFields(d: CalendarDate)
    requires ValidDate(d)
    ensures ParseInt(IntToString(d.year)) == Some(d.year)
    ensures var mm := PadStart2(NatToString(d.month + 1));
            |mm| == 2 && AllDigits(mm) && DigitsValue(mm) == d.month + 1
    ensures var dd := PadStart2(NatToString(d.day));
            |dd| == 2 && AllDigits(dd) && DigitsValue(dd) == d.day
  {
    PaddedNatValue(d.month + 1);
    PaddedNatValue(d.day);
    ParseIntToString(d.year);
  }

  /** Distinct dates have distinct day identifiers. */
  lemma DayIdInjective(d1: CalendarDate, d2: CalendarDate)
    requires ValidDate(d1) && ValidDate(d2)
    requires DayId(d1) == DayId(d2)
    ensures d1 == d2
  {
    DayIdRoundTrip(d1);
    DayIdRoundTrip(d2);
  }

  /** Milliseconds in a day and in a week (no daylight saving). */
  const MsPerDay: int := 86400000
  const MsPerWeek: int := 7 * MsPerDay

  /** The day an instant falls on, counted from the epoch. */
  function DayOf(t: int): int {
    t / MsPerDay
  }

  /** `setHours(0, 0, 0, 0)`: the start of the day the instant falls on. */
  function MidnightOf(t: int): (m: int)
    ensures m <= t < m + MsPerDay
    ensures m % MsPerDay == 0
    ensures DayOf(m) == DayOf(t)
  {
    t - t % MsPerDay
  }
}
