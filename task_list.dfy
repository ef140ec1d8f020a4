/**
 * The appointments and tasks checklist: a record from task id to a checked
 * flag, where an id never touched reads as unchecked.
 */
module TaskList {
  import opened Wrappers
  import opened Text

  type CheckedTasks = map<string, bool>

  /** `!!checkedTasks[id]`: what the checkbox shows. */
  predicate IsChecked(m: CheckedTasks, id: string) {
    id in m && m[id]
  }

  /** `{...prev, [id]: !prev[id]}`. */
  function ToggleTask(m: CheckedTasks, id: string): (r: CheckedTasks)
    ensures r.Keys == m.Keys + {id}
    ensures IsChecked(r, id) == !IsChecked(m, id)
    ensures forall other :: other != id ==> (other in r <==> other in m) && (other in m ==> r[other] == m[other])
  {
    m[id := !IsChecked(m, id)]
  }

  /** Two clicks on a box show it as before, and no other box ever changes. */
  lemma ToggleTwiceRestoresDisplay(m: CheckedTasks, id: string)
    ensures forall t :: IsChecked(ToggleTask(ToggleTask(m, id), id), t) == IsChecked(m, t)
  {
  }

  /** What a sequence of clicks leaves checked: a box is checked exactly when it was clicked an odd number of times more. */
  function ClickAll(m: CheckedTasks, clicks: seq<string>): CheckedTasks
    decreases |clicks|
  {
    if clicks == [] then m else ToggleTask(ClickAll(m, clicks[..|clicks| - 1]), clicks[|clicks| - 1])
  }

  function Occurrences(clicks: seq<string>, id: string): nat
    decreases |clicks|
  {
    if clicks == [] then 0
    else Occurrences(clicks[..|clicks| - 1], id) + (if clicks[|clicks| - 1] == id then 1 else 0)
  }

  lemma {:induction false} ClicksParity(m: CheckedTasks, clicks: seq<string>, id: string)
    ensures IsChecked(ClickAll(m, clicks), id) == (IsChecked(m, id) != (Occurrences(clicks, id) % 2 == 1))
    decreases |clicks|
  {
    if clicks != [] {
      ClicksParity(m, clicks[..|clicks| - 1], id);
    }
  }

  /** `trimester-${currentTrimester}`: the accordion section open at first. */
  function DefaultAccordionValue(currentTrimester: int): (v: string)
    ensures |v| > 10 && v[..10] == "trimester-"
    ensures ParseInt(v[10..]) == Some(currentTrimester)
  {
    var v := "trimester-" + IntToString(currentTrimester);
    assert v[10..] == IntToString(currentTrimester);
    ParseIntToString(currentTrimester);
    v
  }

  /** Each trimester opens its own section: the value names exactly one trimester. */
  lemma AccordionValueInjective(a: int, b: int)
    requires DefaultAccordionValue(a) == DefaultAccordionValue(b)
    ensures a == b
  {
  }

  class TaskListCard {
    var checkedTasks: CheckedTasks

    constructor ()
      ensures checkedTasks == map[]
    {
      checkedTasks := map[];
    }

    method HandleCheckChange(id: string)
      modifies this
      ensures checkedTasks == ToggleTask(old(checkedTasks), id)
    {
      checkedTasks := ToggleTask(checkedTasks, id);
    }
  }
}
