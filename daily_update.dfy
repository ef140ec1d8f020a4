/**
 * The daily update card: the development entry for the day of the pregnancy,
 * from a 280-day table, and a milestone banner for the weeks that have one.
 */
module DailyUpdate {
  import opened Wrappers
  import opened Numbers

  /** `dailyDevelopmentData.length`: 21 conception days, 21 days of weeks 4 to 6, and 238 filler days. */
  const DailyTableLength: nat := 21 + 21 + (280 - 21 - 21)

  /**
   * `todayIndex % length`, where `todayIndex` is the 1-based day less one, or 0
   * for a day that is not positive.
   */
  function DailyIndex(dayOfPregnancy: int, length: nat): (i: nat)
    requires length > 0
    ensures i < length
    ensures 1 <= dayOfPregnancy <= length ==> i == dayOfPregnancy - 1
    ensures dayOfPregnancy <= 0 ==> i == 0
  {
    var todayIndex := if dayOfPregnancy > 0 then dayOfPregnancy - 1 else 0;
    todayIndex % length
  }

  /** The entry the card shows. */
  function DailyData<T>(table: seq<T>, dayOfPregnancy: int): (d: T)
    requires table != []
    ensures 1 <= dayOfPregnancy <= |table| ==> d == table[dayOfPregnancy - 1]
    ensures dayOfPregnancy <= 0 ==> d == table[0]
  {
    table[DailyIndex(dayOfPregnancy, |table|)]
  }

  /** Past the end of the table the entries start again from day 1. */
  lemma DailyDataRepeats<T>(table: seq<T>, dayOfPregnancy: int)
    requires table != [] && dayOfPregnancy >= 1
    ensures DailyData(table, dayOfPregnancy + |table|) == DailyData(table, dayOfPregnancy)
  {
    ModAddDivisor(dayOfPregnancy - 1, |table|);
  }

  /** The whole 280-day pregnancy reads the table in order, once. */
  lemma FullTermReadsInOrder(dayOfPregnancy: int)
    requires 1 <= dayOfPregnancy <= 280
    ensures DailyIndex(dayOfPregnancy, DailyTableLength) == dayOfPregnancy - 1
  {
  }

  /** `milestones`: the week numbers with a banner. */
  const Milestones: map<int, string> := map[
    12 := "First Trimester Complete! \U{1F389}",
    20 := "Halfway There! \U{1F38A}",
    24 := "Viability Milestone Reached! \U{1F4AA}",
    28 := "Third Trimester Begins! \U{1F31F}",
    36 := "Baby is Full Term Soon! \U{1F476}"]

  /** `milestones[currentWeek]` when it is a non-empty text, else no banner. */
  function Milestone(currentWeek: int): (m: Option<string>)
    ensures m.Some? <==> currentWeek in {12, 20, 24, 28, 36}
    ensures m.Some? ==> m.value == Milestones[currentWeek] && m.value != ""
  {
    if currentWeek in Milestones && Milestones[currentWeek] != "" then Some(Milestones[currentWeek]) else None
  }

  /** The banner appears in five weeks of the pregnancy and in no week outside 12 to 36. */
  lemma MilestonesWithinPregnancy(currentWeek: int)
    requires currentWeek < 12 || currentWeek > 36
    ensures Milestone(currentWeek).None?
  {
  }
}
