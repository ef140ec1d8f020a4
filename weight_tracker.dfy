/**
 * The weight tracker card: weight entries in date order, the latest entry and
 * the gain since the starting weight, the per-unit chart and history, and the
 * entry form with its add/edit modes. Dates are epoch milliseconds; weights are
 * exact decimals (module Numbers).
 */
module WeightTracker {
  import opened Wrappers
  import opened Numbers

  datatype Unit = Lbs | Kg

  /** An entry as the card lists it; its weight is the stored number, in `String` form. */
  datatype WeightEntry = WeightEntry(id: string, date: int, weight: Decimal, unit: Unit)

  predicate ValidWeights(es: seq<WeightEntry>) {
    forall i :: 0 <= i < |es| ==> ValidDecimal(es[i].weight)
  }

  /** The listener's query orders entries by date, ascending. */
  predicate SortedByDate(es: seq<WeightEntry>) {
    forall i, j :: 0 <= i < j < |es| ==> es[i].date <= es[j].date
  }

  /** `latestEntry`: the last entry of the date-ordered list, none for an empty list. */
  function LatestEntry(es: seq<WeightEntry>): (r: Option<WeightEntry>)
    ensures r.None? <==> es == []
    ensures es != [] ==> r == Some(es[|es| - 1])
    ensures r.Some? && SortedByDate(es) ==> forall i :: 0 <= i < |es| ==> es[i].date <= r.value.date
  {
    if es == [] then None else Some(es[|es| - 1])
  }

  /** An entry dated after every listed one is the latest once the date-ordered listener adds it. */
  lemma LatestAfterNewEntry(es: seq<WeightEntry>, e: WeightEntry)
    requires SortedByDate(es)
    requires forall i :: 0 <= i < |es| ==> es[i].date <= e.date
    ensures SortedByDate(es + [e])
    ensures LatestEntry(es + [e]) == Some(e)
  {
    var t := es + [e];
    forall i, j | 0 <= i < j < |t| ensures t[i].date <= t[j].date {
      if j < |es| {
        assert t[i] == es[i] && t[j] == es[j];
      } else {
        assert t[i] == es[i] && t[j] == e;
      }
    }
  }

  /**
   * `totalGain`: the latest weight less the starting weight when both exist; 0
   * without entries or when the starting weight is missing or 0 (falsy).
   */
  function TotalGain(startingWeight: Option<real>, es: seq<WeightEntry>): (g: real)
    requires ValidWeights(es)
    ensures startingWeight.None? || startingWeight == Some(0.0) || es == [] ==> g == 0.0
    ensures startingWeight.Some? && startingWeight.value != 0.0 && es != [] ==>
              startingWeight.value + g == Value(LatestEntry(es).value.weight)
  {
    match LatestEntry(es)
    case None => 0.0
    case Some(latest) =>
      if startingWeight.Some? && startingWeight.value != 0.0 then Value(latest.weight) - startingWeight.value
      else 0.0
  }

  /** `filter(e => e.unit === weightUnit)`. */
  function OfUnit(es: seq<WeightEntry>, unit: Unit): (r: seq<WeightEntry>)
    ensures |r| <= |es|
    ensures forall e :: e in r <==> e in es && e.unit == unit
  {
    if es == [] then []
    else (if es[0].unit == unit then [es[0]] else []) + OfUnit(es[1..], unit)
  }

  lemma {:induction false} OfUnitKeepsOrder(es: seq<WeightEntry>, unit: Unit)
    requires SortedByDate(es)
    ensures SortedByDate(OfUnit(es, unit))
  {
    if es != [] {
      var rest := OfUnit(es[1..], unit);
      OfUnitKeepsOrder(es[1..], unit);
      forall e | e in rest ensures es[0].date <= e.date {
        var k :| 0 <= k < |es[1..]| && es[1..][k] == e;
        assert es[k + 1] == e;
      }
    }
  }

  /** A chart point: the entry's date (shown as `MMM d`) and its weight. */
  datatype ChartPoint = ChartPoint(date: int, weight: Decimal)

  /** `chartData`: the entries of the selected unit, in date order, as points. */
  function ChartData(es: seq<WeightEntry>, unit: Unit): (r: seq<ChartPoint>)
    ensures |r| == |OfUnit(es, unit)|
    ensures forall i :: 0 <= i < |r| ==>
              r[i] == ChartPoint(OfUnit(es, unit)[i].date, OfUnit(es, unit)[i].weight)
  {
    var kept := OfUnit(es, unit);
    seq(|kept|, i requires 0 <= i < |kept| => ChartPoint(kept[i].date, kept[i].weight))
  }

  /** The chart is in date order whenever the entries are. */
  lemma ChartDataInDateOrder(es: seq<WeightEntry>, unit: Unit)
    requires SortedByDate(es)
    ensures forall i, j :: 0 <= i < j < |ChartData(es, unit)| ==> ChartData(es, unit)[i].date <= ChartData(es, unit)[j].date
  {
    OfUnitKeepsOrder(es, unit);
  }

  function Reverse<T>(s: seq<T>): (r: seq<T>)
    ensures |r| == |s|
    ensures forall i :: 0 <= i < |s| ==> r[i] == s[|s| - 1 - i]
  {
    if s == [] then [] else Reverse(s[1..]) + [s[0]]
  }

  /** The history list: `slice().reverse().filter(e => e.unit === weightUnit)`. */
  function RecentEntries(es: seq<WeightEntry>, unit: Unit): seq<WeightEntry> {
    OfUnit(Reverse(es), unit)
  }

  lemma {:induction false} OfUnitAppend(a: seq<WeightEntry>, b: seq<WeightEntry>, unit: Unit)
    ensures OfUnit(a + b, unit) == OfUnit(a, unit) + OfUnit(b, unit)
  {
    if a != [] {
      assert (a + b)[1..] == a[1..] + b;
      OfUnitAppend(a[1..], b, unit);
    } else {
      assert a + b == b;
    }
  }

  /** The history shows exactly the chart's entries, newest first. */
  lemma {:induction false} RecentIsChartReversed(es: seq<WeightEntry>, unit: Unit)
    ensures RecentEntries(es, unit) == Reverse(OfUnit(es, unit))
  {
    if es != [] {
      RecentIsChartReversed(es[1..], unit);
      OfUnitAppend(Reverse(es[1..]), [es[0]], unit);
      var head := if es[0].unit == unit then [es[0]] else [];
      assert OfUnit([es[0]], unit) == head + OfUnit([es[0]][1..], unit);
      assert OfUnit(es, unit) == head + OfUnit(es[1..], unit);
      ReverseAppend(head, OfUnit(es[1..], unit));
    }
  }

  lemma ReverseAppend<T>(a: seq<T>, b: seq<T>)
    ensures Reverse(a + b) == Reverse(b) + Reverse(a)
  {
    var l := Reverse(a + b);
    var r := Reverse(b) + Reverse(a);
    assert |l| == |r|;
    forall i | 0 <= i < |l| ensures l[i] == r[i] {
      if i < |b| {
        assert l[i] == (a + b)[|a| + |b| - 1 - i] == b[|b| - 1 - i];
      } else {
        assert l[i] == (a + b)[|a| + |b| - 1 - i] == a[|a| + |b| - 1 - i];
      }
    }
  }

  /** A `weightTracking` document. */
  datatype WeightDoc = WeightDoc(weight: Decimal, date: int, unit: Unit, userId: string)

  datatype SaveOutcome = InvalidWeight | Added(id: string) | Updated(id: string) | SaveFailed

  /** `!user || !newWeight || isNaN(parseFloat(newWeight))`, negated. */
  predicate AcceptsWeight(user: Option<string>, text: string) {
    user.Some? && text != "" && ParseDecimal(text).Some?
  }

  /** The document the form writes: the parsed weight (stored as a number, so in `String` form), date, unit and owner. */
  function FormDoc(text: string, date: int, unit: Unit, uid: string): (d: WeightDoc)
    requires ParseDecimal(text).Some?
    ensures ValidDecimal(d.weight) && Value(d.weight) == Value(ParseDecimal(text).value)
    ensures d.date == date && d.unit == unit && d.userId == uid
  {
    ParseDecimalSound(text);
    WeightDoc(Canonical(ParseDecimal(text).value), date, unit, uid)
  }

  class WeightTrackerCard {
    const user: Option<string>
    var newWeight: string
    var newDate: int
    var weightUnit: Unit
    var editingEntry: Option<WeightEntry>
    /** The store: the user's `weightTracking` documents by id and the profile's starting weight and unit. */
    var docs: map<string, WeightDoc>
    var startingWeight: Option<real>
    var profileUnit: Unit

    constructor (user: Option<string>, today: int, docs: map<string, WeightDoc>, startingWeight: Option<real>, profileUnit: Unit)
      ensures this.user == user && this.docs == docs
      ensures this.startingWeight == startingWeight && this.profileUnit == profileUnit
      ensures newWeight == "" && newDate == today && weightUnit == Lbs && editingEntry.None?
    {
      this.user := user;
      newWeight := "";
      newDate := today;
      weightUnit := Lbs;
      editingEntry := None;
      this.docs := docs;
      this.startingWeight := startingWeight;
      this.profileUnit := profileUnit;
    }

    /** `startingWeight` is falsy: the onboarding form is shown instead. */
    predicate ShowOnboarding()
      reads this
    {
      startingWeight.None? || startingWeight == Some(0.0)
    }

    /** The profile listener: with a (truthy) starting weight the form takes the stored unit, else onboarding shows. */
    method ProfileSnapshot()
      modifies this`weightUnit
      ensures !ShowOnboarding() ==> weightUnit == profileUnit
      ensures ShowOnboarding() ==> weightUnit == old(weightUnit)
    {
      if !ShowOnboarding() {
        weightUnit := profileUnit;
      }
    }

    /** `startEditing`: the form takes the entry's weight (as `String` shows it), date and unit. */
    method StartEditing(entry: WeightEntry)
      requires ValidDecimal(entry.weight)
      modifies this`editingEntry, this`newWeight, this`newDate, this`weightUnit
      ensures editingEntry == Some(entry) && newDate == entry.date && weightUnit == entry.unit
      ensures newWeight == DecimalText(Canonical(entry.weight))
      ensures ParseDecimal(newWeight).Some? && Value(ParseDecimal(newWeight).value) == Value(entry.weight)
    {
      editingEntry := Some(entry);
      newWeight := DecimalText(Canonical(entry.weight));
      newDate := entry.date;
      weightUnit := entry.unit;
      CanonicalReadsBack(entry.weight);
    }

    /** `cancelEditing`: no entry is edited, the weight box is empty and the date is today again. */
    method CancelEditing(today: int)
      modifies this`editingEntry, this`newWeight, this`newDate
      ensures editingEntry.None? && newWeight == "" && newDate == today
    {
      editingEntry := None;
      newWeight := "";
      newDate := today;
    }

    /**
     * `handleAddOrUpdateEntry`: invalid input changes nothing; while editing, the
     * edited document is overwritten, else a document with the fresh id is added;
     * on success the form is reset, on failure it is left as it was.
     */
    method HandleAddOrUpdateEntry(today: int, freshId: string, writeSucceeds: bool) returns (outcome: SaveOutcome)
      requires freshId !in docs
      modifies this`docs, this`newWeight, this`newDate, this`editingEntry
      ensures !AcceptsWeight(user, old(newWeight)) ==>
                outcome == InvalidWeight && docs == old(docs)
                && newWeight == old(newWeight) && newDate == old(newDate) && editingEntry == old(editingEntry)
      ensures AcceptsWeight(user, old(newWeight)) ==>
                var d := FormDoc(old(newWeight), old(newDate), weightUnit, user.value);
                && (writeSucceeds && old(editingEntry).Some? ==>
                      outcome == Updated(old(editingEntry).value.id) && docs == old(docs)[old(editingEntry).value.id := d])
                && (writeSucceeds && old(editingEntry).None? ==>
                      outcome == Added(freshId) && docs == old(docs)[freshId := d])
                && (writeSucceeds ==> newWeight == "" && newDate == today && editingEntry.None?)
                && (!writeSucceeds ==> outcome == SaveFailed && docs == old(docs) && newWeight == old(newWeight)
                                       && newDate == old(newDate) && editingEntry == old(editingEntry))
    {
      if !AcceptsWeight(user, newWeight) {
        return InvalidWeight;
      }
      var d := FormDoc(newWeight, newDate, weightUnit, user.value);
      if !writeSucceeds {
        return SaveFailed;
      }
      if editingEntry.Some? {
        docs := docs[editingEntry.value.id := d];
        outcome := Updated(editingEntry.value.id);
      } else {
        docs := docs[freshId := d];
        outcome := Added(freshId);
      }
      newWeight := "";
      newDate := today;
      editingEntry := None;
    }

    /** `handleSaveStartingWeight`: the same validation; on success the profile takes the weight and unit. */
    method HandleSaveStartingWeight(writeSucceeds: bool) returns (saved: bool)
      modifies this`startingWeight, this`profileUnit, this`newWeight
      ensures saved <==> AcceptsWeight(user, old(newWeight)) && writeSucceeds
      ensures saved ==> startingWeight == Some(Value(ParseDecimal(old(newWeight)).value))
                        && profileUnit == weightUnit && newWeight == ""
      ensures !saved ==> startingWeight == old(startingWeight) && profileUnit == old(profileUnit) && newWeight == old(newWeight)
    {
      if !AcceptsWeight(user, newWeight) || !writeSucceeds {
        return false;
      }
      ParseDecimalSound(newWeight);
      startingWeight := Some(Value(ParseDecimal(newWeight).value));
      profileUnit := weightUnit;
      newWeight := "";
      saved := true;
    }

    /** `handleDeleteEntry`. */
    method HandleDeleteEntry(id: string, writeSucceeds: bool)
      modifies this`docs
      ensures docs == if user.Some? && writeSucceeds then old(docs) - {id} else old(docs)
    {
      if user.Some? && writeSucceeds {
        docs := docs - {id};
      }
    }

    /** `handleUnitChange`: the form's unit always changes; the profile only when past onboarding. */
    method HandleUnitChange(unit: Unit, writeSucceeds: bool)
      modifies this`weightUnit, this`profileUnit
      ensures weightUnit == unit
      ensures profileUnit == if user.Some? && !ShowOnboarding() && writeSucceeds then unit else old(profileUnit)
    {
      weightUnit := unit;
      if user.Some? && !ShowOnboarding() && writeSucceeds {
        profileUnit := unit;
      }
    }
  }
}
