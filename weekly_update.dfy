/**
 * The weekly development card: the update for the current week, falling back
 * to the first update of the table, and a "no update" notice only when the
 * table has nothing at all.
 */
module WeeklyUpdate {
  import opened Wrappers
  import opened Arrays

  /** One row of `weeklyDevelopmentUpdates`; the text fields are carried, not interpreted. */
  datatype WeeklyDevelopmentUpdate = WeeklyDevelopmentUpdate(
    week: int,
    title: string,
    sizeComparison: string,
    physicalDevelopment: string,
    organDevelopment: string,
    notableChanges: string)

  /** `find(u => u.week === currentWeek) || weeklyDevelopmentUpdates[0]`; `None` stands for the notice. */
  function UpdateData(updates: seq<WeeklyDevelopmentUpdate>, currentWeek: int): (r: Option<WeeklyDevelopmentUpdate>)
    ensures r.None? <==> updates == []
    ensures r.Some? ==> r.value in updates
    ensures (exists i :: 0 <= i < |updates| && updates[i].week == currentWeek) ==>
              r.Some? && r.value.week == currentWeek
    ensures (forall i :: 0 <= i < |updates| ==> updates[i].week != currentWeek) && updates != [] ==>
              r == Some(updates[0])
  {
    match FindIndex(updates, (u: WeeklyDevelopmentUpdate) => u.week == currentWeek)
    case Some(i) => Some(updates[i])
    case None => if updates == [] then None else Some(updates[0])
  }

  /** Of several rows for one week, the first one is shown. */
  lemma FirstRowOfWeekWins(updates: seq<WeeklyDevelopmentUpdate>, i: nat)
    requires i < |updates|
    requires forall j :: 0 <= j < i ==> updates[j].week != updates[i].week
    ensures UpdateData(updates, updates[i].week) == Some(updates[i])
  {
    var p := (u: WeeklyDevelopmentUpdate) => u.week == updates[i].week;
    var k := FindIndex(updates, p);
    assert p(updates[i]);
    assert k.Some?;
    assert k.value == i;
  }
}
