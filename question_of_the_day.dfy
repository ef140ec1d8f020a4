/**
 * The question-of-the-day card: the question at the day of the year modulo the
 * number of questions, so the 50 questions cycle through the year.
 */
module QuestionOfTheDay {
  import opened Text
  import opened Numbers
  import opened Calendar

  datatype Question = Question(id: string, question: string, answer: string)

  /** The id of the `k`-th question of `questionOfTheDayData`, `q001` to `q050`. */
  function QuestionId(k: int): (id: string)
    requires 1 <= k <= 50
    ensures |id| == 4 && id[0] == 'q'
  {
    ['q', DigitChar(k / 100), DigitChar(k / 10 % 10), DigitChar(k % 10)]
  }

  /** The ids of the table, in table order: the `i`-th row is question `i + 1`. */
  const QuestionIds: seq<string> := seq(50, i requires 0 <= i < 50 => QuestionId(i + 1))

  /** Gregorian leap years, as `Date` has them. */
  predicate IsLeapYear(year: int) {
    (year % 4 == 0 && year % 100 != 0) || year % 400 == 0
  }

  function DaysInYear(year: int): int {
    if IsLeapYear(year) then 366 else 365
  }

  /** The length of a month, 0-based as `getMonth()` numbers them. */
  function DaysInMonth(year: int, month: int): (n: int)
    requires 0 <= month < 12
    ensures 28 <= n <= 31
  {
    if month == 1 then (if IsLeapYear(year) then 29 else 28)
    else if month in {3, 5, 8, 10} then 30
    else 31
  }

  /** The days of a common year before each month, and the whole year at index 12. */
  const CumulativeDays: seq<int> := [0, 31, 59, 90, 120, 151, 181, 212, 243, 273, 304, 334, 365]

  /** The days of the months before `month`, with February's leap day after February. */
  function DaysBefore(year: int, month: int): (n: int)
    requires 0 <= month <= 12
    ensures 0 <= n <= DaysInYear(year)
    ensures month == 12 ==> n == DaysInYear(year)
  {
    CumulativeDays[month] + if month >= 2 && IsLeapYear(year) then 1 else 0
  }

  /** Each month begins where the previous ended: the table agrees with the month lengths. */
  lemma DaysBeforeAddsMonths(year: int, month: int)
    requires 0 <= month < 12
    ensures DaysBefore(year, month + 1) == DaysBefore(year, month) + DaysInMonth(year, month)
  {
  }

  /** A date that exists: its day is within its month. */
  predicate RealDate(d: CalendarDate) {
    ValidDate(d) && d.day <= DaysInMonth(d.year, d.month)
  }

  /** date-fns `getDayOfYear`: 1 on January 1st. */
  function DayOfYear(d: CalendarDate): (n: int)
    requires RealDate(d)
    ensures 1 <= n <= DaysInYear(d.year)
  {
    DaysBefore(d.year, d.month) + d.day
  }

  /** The next day of the same year is the next day of the year. */
  lemma NextDayOfYear(d: CalendarDate)
    requires RealDate(d)
    ensures d.day < DaysInMonth(d.year, d.month) ==>
              DayOfYear(d.(day := d.day + 1)) == DayOfYear(d) + 1
    ensures d.day == DaysInMonth(d.year, d.month) && d.month < 11 ==>
              DayOfYear(CalendarDate(d.year, d.month + 1, 1)) == DayOfYear(d) + 1
  {
  }

  /** `getDayOfYear(today) % questionOfTheDayData.length`; the table is never empty. */
  function QuestionOfTheDay(questions: seq<Question>, today: CalendarDate): (q: Question)
    requires questions != [] && RealDate(today)
    ensures q == questions[DayOfYear(today) % |questions|]
  {
    questions[DayOfYear(today) % |questions|]
  }

  /** Two consecutive days of a year never show the same question when there are at least two. */
  lemma ConsecutiveDaysDiffer(dayOfYear: int, n: int)
    requires dayOfYear >= 0 && n >= 2
    ensures (dayOfYear + 1) % n != dayOfYear % n
  {
    var q, r := dayOfYear / n, dayOfYear % n;
    assert dayOfYear == n * q + r && 0 <= r < n;
    if r < n - 1 {
      DivModUnique(dayOfYear + 1, n, q, r + 1);
    } else {
      assert dayOfYear + 1 == n * (q + 1) + 0;
      DivModUnique(dayOfYear + 1, n, q + 1, 0);
    }
  }

  /** Days of the year that differ by a multiple of the number of questions show the same question. */
  lemma {:induction false} QuestionRecurs(dayOfYear: int, n: int, k: nat)
    requires n >= 1
    ensures (dayOfYear + k * n) % n == dayOfYear % n
  {
    if k > 0 {
      QuestionRecurs(dayOfYear, n, k - 1);
      assert dayOfYear + k * n == (dayOfYear + (k - 1) * n) + n;
      ModAddDivisor(dayOfYear + (k - 1) * n, n);
    }
  }

  /** January 1st is day 1, February 19th day 50 and December 31st the last day of the year. */
  lemma DaysOfYearLandmarks(year: int)
    ensures DayOfYear(CalendarDate(year, 0, 1)) == 1
    ensures DayOfYear(CalendarDate(year, 1, 19)) == 50
    ensures DayOfYear(CalendarDate(year, 11, 31)) == DaysInYear(year)
  {
  }

  /**
   * For the 50 questions of the table: January 1st shows `q002`, the 50th day
   * `q001`, and the last day of the year `q016` (`q017` in a leap year).
   */
  lemma QuestionIdsAcrossTheYear(year: int)
    ensures |QuestionIds| == 50
    ensures QuestionIds[DayOfYear(CalendarDate(year, 0, 1)) % 50] == "q002"
    ensures QuestionIds[DayOfYear(CalendarDate(year, 1, 19)) % 50] == "q001"
    ensures !IsLeapYear(year) ==> QuestionIds[DayOfYear(CalendarDate(year, 11, 31)) % 50] == "q016"
    ensures IsLeapYear(year) ==> QuestionIds[DayOfYear(CalendarDate(year, 11, 31)) % 50] == "q017"
  {
    DaysOfYearLandmarks(year);
    assert QuestionIds[0] == QuestionId(1) == "q001";
    assert QuestionIds[1] == QuestionId(2) == "q002";
    assert QuestionIds[15] == QuestionId(16) == "q016";
    assert QuestionIds[16] == QuestionId(17) == "q017";
  }
}
