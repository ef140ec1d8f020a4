/**
 * The due-date card: the due date is the last menstrual period (LMP) plus 40
 * weeks, and the card shows weeks pregnant, days to go and the trimester,
 * measured from the start of today. Instants are epoch milliseconds with a
 * fixed 24-hour day (module Calendar).
 */
module DueDate {
  import opened Wrappers
  import opened Numbers
  import opened Calendar

  /** date-fns `addWeeks`. */
  function AddWeeks(t: int, weeks: int): int {
    t + weeks * MsPerWeek
  }

  /** date-fns `subWeeks`. */
  function SubWeeks(t: int, weeks: int): int {
    t - weeks * MsPerWeek
  }

  lemma SubWeeksUndoesAddWeeks(t: int, weeks: int)
    ensures SubWeeks(AddWeeks(t, weeks), weeks) == t
  {
  }

  /** date-fns `differenceInDays`: the number of full days from `b` to `a`, rounded toward zero. */
  function DifferenceInDays(a: int, b: int): (d: int)
    ensures a >= b ==> d * MsPerDay <= a - b < (d + 1) * MsPerDay
    ensures a < b ==> (d - 1) * MsPerDay < a - b <= d * MsPerDay
  {
    TruncDiv(a - b, MsPerDay)
  }

  /** date-fns `differenceInWeeks`: full days over seven, rounded toward zero. */
  function DifferenceInWeeks(a: int, b: int): (w: int)
    ensures a >= b ==> 0 <= 7 * w <= DifferenceInDays(a, b) < 7 * (w + 1)
    ensures a < b ==> 7 * (w - 1) < DifferenceInDays(a, b) <= 7 * w <= 0
  {
    TruncDiv(DifferenceInDays(a, b), 7)
  }

  /** `weeksPregnant`. */
  function WeeksPregnant(dueDate: int, today: int): (w: int)
    ensures today <= dueDate ==> w <= 40
    ensures dueDate <= today ==> w >= 40
  {
    40 - DifferenceInWeeks(dueDate, today)
  }

  /** `daysRemaining`. */
  function DaysRemaining(dueDate: int, today: int): (d: int)
    ensures today <= dueDate ==> d >= 0 && d * MsPerDay <= dueDate - today < (d + 1) * MsPerDay
    ensures dueDate < today ==> d <= 0
  {
    DifferenceInDays(dueDate, today)
  }

  /** The "Days to Go" figure: the remaining days, never below 0. */
  function DaysToGo(dueDate: int, today: int): (n: int)
    ensures n >= 0
    ensures n == if DaysRemaining(dueDate, today) > 0 then DaysRemaining(dueDate, today) else 0
  {
    var d := DaysRemaining(dueDate, today);
    if d > 0 then d else 0
  }

  /** `weeks <= 13 ? 1 : weeks <= 27 ? 2 : 3`. */
  function Trimester(weeks: int): (t: int)
    ensures 1 <= t <= 3
    ensures t == 1 <==> weeks <= 13
    ensures t == 3 <==> weeks > 27
  {
    if weeks <= 13 then 1 else if weeks <= 27 then 2 else 3
  }

  /** Later weeks never fall in an earlier trimester. */
  lemma TrimesterMonotone(w1: int, w2: int)
    requires w1 <= w2
    ensures Trimester(w1) <= Trimester(w2)
  {
  }

  /** `handleSave`'s due date: LMP plus 40 weeks. */
  function DueDateFromLmp(lmp: int): (due: int)
    ensures due - lmp == 280 * MsPerDay
  {
    AddWeeks(lmp, 40)
  }

  /** An LMP of today: week 0, 280 days to go, first trimester. */
  lemma LmpTodayFigures(today: int)
    ensures WeeksPregnant(DueDateFromLmp(today), today) == 0
    ensures DaysRemaining(DueDateFromLmp(today), today) == 280
    ensures DaysToGo(DueDateFromLmp(today), today) == 280
    ensures Trimester(WeeksPregnant(DueDateFromLmp(today), today)) == 1
  {
    assert DueDateFromLmp(today) - today == 280 * MsPerDay;
    assert TruncDiv(280 * MsPerDay, MsPerDay) == 280;
  }

  /**
   * For an LMP `k` days before today (both at midnight, `k` up to 280), the card
   * shows `k` days less than 280 to go and week `ceil(k / 7)`: day 1 to 7 of the
   * pregnancy are week 1.
   */
  lemma WeeksFromDaysSinceLmp(lmp: int, k: int)
    requires 0 <= k <= 280
    ensures DaysRemaining(DueDateFromLmp(lmp), lmp + k * MsPerDay) == 280 - k
    ensures WeeksPregnant(DueDateFromLmp(lmp), lmp + k * MsPerDay) == (k + 6) / 7
  {
    var today := lmp + k * MsPerDay;
    assert DueDateFromLmp(lmp) - today == (280 - k) * MsPerDay;
    WholeDays(280 - k);
    assert DaysRemaining(DueDateFromLmp(lmp), today) == 280 - k;
    assert TruncDiv(280 - k, 7) == (280 - k) / 7;
    CeilingWeeks(k);
  }

  lemma WholeDays(n: int)
    requires n >= 0
    ensures (n * MsPerDay) / MsPerDay == n
  {
    var q := (n * MsPerDay) / MsPerDay;
    assert n * MsPerDay == q * MsPerDay + (n * MsPerDay) % MsPerDay;
  }

  lemma CeilingWeeks(k: int)
    requires 0 <= k <= 280
    ensures 40 - (280 - k) / 7 == (k + 6) / 7
  {
    var q := (k + 6) / 7;
    var r := (k + 6) % 7;
    assert k == 7 * q + r - 6;
    assert 280 - k == 7 * (40 - q) + (6 - r);
  }

  /**
   * The date picker: dates after the start of today, and dates before nine
   * months ago, are disabled. `nineMonthsAgo` is now with the month moved back
   * nine (calendar arithmetic is not modelled, so it is a parameter).
   */
  function PickerDisabled(date: int, now: int, nineMonthsAgo: int): (disabled: bool)
    ensures !disabled <==> nineMonthsAgo <= date <= MidnightOf(now)
  {
    date > MidnightOf(now) || date < nineMonthsAgo
  }

  /** A date the picker allows is an LMP no later than today, so the week shown from it is never negative. */
  lemma PickedLmpGivesWeeksFromZero(lmp: int, now: int, nineMonthsAgo: int)
    requires !PickerDisabled(lmp, now, nineMonthsAgo)
    requires lmp % MsPerDay == 0
    requires MidnightOf(now) - lmp <= 280 * MsPerDay
    ensures 0 <= WeeksPregnant(DueDateFromLmp(lmp), MidnightOf(now)) <= 40
  {
    var today := MidnightOf(now);
    var k := (today - lmp) / MsPerDay;
    assert today - lmp == k * MsPerDay;
    WeeksFromDaysSinceLmp(lmp, k);
  }

  class DueDateCard {
    var dialogOpen: bool
    var selectedLmp: Option<int>

    constructor ()
      ensures !dialogOpen && selectedLmp.None?
    {
      dialogOpen := false;
      selectedLmp := None;
    }

    method SelectLmp(date: Option<int>)
      modifies this`selectedLmp
      ensures selectedLmp == date
    {
      selectedLmp := date;
    }

    /**
     * `handleSave`: without a selected LMP nothing happens and the dialog stays
     * as it is; with one, the due date LMP + 40 weeks goes to the page's
     * `setDueDate` and the dialog closes.
     */
    method HandleSave() returns (setDueDate: Option<int>)
      modifies this`dialogOpen
      ensures selectedLmp.None? ==> setDueDate.None? && dialogOpen == old(dialogOpen)
      ensures selectedLmp.Some? ==> setDueDate == Some(DueDateFromLmp(selectedLmp.value)) && !dialogOpen
    {
      if selectedLmp.Some? {
        setDueDate := Some(DueDateFromLmp(selectedLmp.value));
        dialogOpen := false;
      } else {
        setDueDate := None;
      }
    }
  }
}
