/**
 * The dashboard page: it loads the due date from the user's profile, stores a
 * newly calculated one together with the pregnancy start 40 weeks earlier, and
 * derives the current week and trimester that the other cards are given.
 */
module DashboardPage {
  import opened Wrappers
  import opened Numbers
  import opened Calendar
  import opened DueDate

  /** The two profile fields the page reads and writes; other fields are merged around them. */
  datatype UserDoc = UserDoc(dueDate: Option<int>, pregnancyStartDate: Option<int>)

  /** `currentWeek`: measured from the raw current instant, and 1 without a due date. */
  function CurrentWeek(dueDate: Option<int>, now: int): (w: int)
    ensures dueDate.None? ==> w == 1
    ensures dueDate.Some? ==> w == WeeksPregnant(dueDate.value, now)
  {
    match dueDate
    case None => 1
    case Some(d) => 40 - DifferenceInWeeks(d, now)
  }

  /** `currentTrimester`, by the same thresholds as the due-date card. */
  function CurrentTrimester(dueDate: Option<int>, now: int): (t: int)
    ensures 1 <= t <= 3
    ensures t == Trimester(CurrentWeek(dueDate, now))
  {
    var w := CurrentWeek(dueDate, now);
    if w <= 13 then 1 else if w <= 27 then 2 else 3
  }

  /** Without a due date the page is in week 1 of the first trimester. */
  lemma NoDueDateIsFirstWeek(now: int)
    ensures CurrentWeek(None, now) == 1 && CurrentTrimester(None, now) == 1
  {
  }

  /** Rounding toward zero moves by at most one step when its argument moves by less than the divisor. */
  lemma TruncDivStep(x: int, y: int, b: int)
    requires b > 0 && x <= y < x + b
    ensures TruncDiv(x, b) <= TruncDiv(y, b) <= TruncDiv(x, b) + 1
  {
    if x >= 0 {
      assert TruncDiv(x, b) == x / b && TruncDiv(y, b) == y / b;
      DivStep(x, y, b);
    } else if y < 0 {
      assert TruncDiv(x, b) == -((-x) / b) && TruncDiv(y, b) == -((-y) / b);
      DivStep(-y, -x, b);
    } else {
      assert TruncDiv(x, b) == -((-x) / b) && TruncDiv(y, b) == y / b;
      DivModUnique(-x, b, 0, -x);
      DivModUnique(y, b, 0, y);
    }
  }

  lemma DivStep(x: int, y: int, b: int)
    requires b > 0 && 0 <= x <= y < x + b
    ensures x / b <= y / b <= x / b + 1
  {
    var q, r := x / b, x % b;
    assert x == b * q + r && 0 <= r < b;
    var s := r + (y - x);
    if s < b {
      assert y == b * q + s;
      DivModUnique(y, b, q, s);
    } else {
      assert b * q + b == b * (q + 1);
      assert y == b * (q + 1) + (s - b);
      DivModUnique(y, b, q + 1, s - b);
    }
  }

  /**
   * The page counts from the raw instant and the due-date card from the start of
   * today, so the page's week is the card's week or one more, never anything else.
   */
  lemma PageWeekAtMostOneAhead(dueDate: int, now: int)
    ensures 0 <= CurrentWeek(Some(dueDate), now) - WeeksPregnant(dueDate, MidnightOf(now)) <= 1
  {
    var today := MidnightOf(now);
    TruncDivStep(dueDate - now, dueDate - today, MsPerDay);
    var dNow := DifferenceInDays(dueDate, now);
    var dToday := DifferenceInDays(dueDate, today);
    assert dNow <= dToday <= dNow + 1;
    TruncDivStep(dNow, dToday, 7);
  }

  class DashboardPageState {
    const user: Option<string>
    var dueDate: Option<int>
    var loading: bool
    /** The store: the signed-in user's profile document, when there is one. */
    var userDoc: Option<UserDoc>

    constructor (user: Option<string>, userDoc: Option<UserDoc>)
      ensures this.user == user && this.userDoc == userDoc
      ensures dueDate.None? && loading
    {
      this.user := user;
      this.userDoc := userDoc;
      dueDate := None;
      loading := true;
    }

    /** `fetchUserData`: signed in, the stored due date (when there is one) is shown and loading ends. */
    method FetchUserData()
      modifies this`dueDate, this`loading
      ensures user.None? ==> dueDate == old(dueDate) && loading == old(loading)
      ensures user.Some? ==> !loading
      ensures user.Some? && userDoc.Some? && userDoc.value.dueDate.Some? ==> dueDate == userDoc.value.dueDate
      ensures user.Some? && (userDoc.None? || userDoc.value.dueDate.None?) ==> dueDate == old(dueDate)
    {
      if user.Some? {
        if userDoc.Some? && userDoc.value.dueDate.Some? {
          dueDate := userDoc.value.dueDate;
        }
        loading := false;
      }
    }

    /**
     * `handleSetDueDate`: signed in and given a date, the profile takes the due
     * date and the pregnancy start 40 weeks before it; only once that write is
     * done does the page show the date. A failed write changes nothing.
     */
    method HandleSetDueDate(date: Option<int>, writeSucceeds: bool)
      modifies this`dueDate, this`userDoc
      ensures user.Some? && date.Some? && writeSucceeds ==>
                && userDoc == Some(UserDoc(date, Some(SubWeeks(date.value, 40))))
                && dueDate == date
      ensures !(user.Some? && date.Some? && writeSucceeds) ==>
                userDoc == old(userDoc) && dueDate == old(dueDate)
    {
      if user.Some? && date.Some? && writeSucceeds {
        userDoc := Some(UserDoc(date, Some(SubWeeks(date.value, 40))));
        dueDate := date;
      }
    }
  }

  /** The stored pregnancy start of a due date from the card is the LMP the user picked. */
  lemma StoredStartIsPickedLmp(lmp: int)
    ensures SubWeeks(DueDateFromLmp(lmp), 40) == lmp
  {
    SubWeeksUndoesAddWeeks(lmp, 40);
  }
}
