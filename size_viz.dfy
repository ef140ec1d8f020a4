/**
 * The size card: the size comparison for the current week, falling back to the
 * last comparison of the table.
 */
module SizeViz {
  import opened Wrappers
  import opened Arrays

  /** One row of `weeklySizeComparisons`. */
  datatype SizeComparison = SizeComparison(week: int, item: string, hint: string)

  /**
   * `find(c => c.week === currentWeek) || weeklySizeComparisons[length - 1]`. The
   * card reads `comparison.item` unconditionally, so it needs a non-empty table.
   */
  function Comparison(comparisons: seq<SizeComparison>, currentWeek: int): (c: SizeComparison)
    requires comparisons != []
    ensures c in comparisons
    ensures (exists i :: 0 <= i < |comparisons| && comparisons[i].week == currentWeek) ==> c.week == currentWeek
    ensures forall i ::
              (0 <= i < |comparisons| && comparisons[i].week == currentWeek
               && forall j :: 0 <= j < i ==> comparisons[j].week != currentWeek) ==> c == comparisons[i]
    ensures (forall i :: 0 <= i < |comparisons| ==> comparisons[i].week != currentWeek) ==>
              c == comparisons[|comparisons| - 1]
  {
    match FindIndex(comparisons, (s: SizeComparison) => s.week == currentWeek)
    case Some(i) => comparisons[i]
    case None => comparisons[|comparisons| - 1]
  }

  /**
   * A week past every row of a table in increasing week order, such as a page
   * week above 40, shows the last (largest) comparison.
   */
  lemma LateWeekShowsLast(comparisons: seq<SizeComparison>, currentWeek: int)
    requires comparisons != []
    requires forall i :: 0 <= i < |comparisons| ==> comparisons[i].week <= comparisons[|comparisons| - 1].week
    requires currentWeek > comparisons[|comparisons| - 1].week
    ensures Comparison(comparisons, currentWeek) == comparisons[|comparisons| - 1]
  {
  }
}
