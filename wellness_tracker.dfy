/**
 * The daily wellness card: one record per day (water glasses, vitamin, sleep
 * and energy sliders, steps, a self-care note), kept in the card's state and
 * written to the day's document after every single-field change.
 */
module WellnessTracker {
  import opened Wrappers
  import opened Text
  import opened Numbers
  import opened Calendar

  datatype WellnessData = WellnessData(
    waterGlasses: int,
    vitaminTaken: bool,
    sleepQuality: int,
    energyLevel: int,
    steps: int,
    selfCare: string)

  /** `defaultWellnessData`. */
  const DefaultWellnessData := WellnessData(0, false, 3, 3, 0, "")

  /** The one field a control changes, with its new value. */
  datatype FieldUpdate =
    | WaterGlasses(n: int)
    | VitaminTaken(b: bool)
    | SleepQuality(n: int)
    | EnergyLevel(n: int)
    | Steps(n: int)
    | SelfCare(s: string)

  /** `{ ...wellnessData, [field]: value }`. */
  function Apply(d: WellnessData, u: FieldUpdate): (r: WellnessData)
    ensures !u.WaterGlasses? ==> r.waterGlasses == d.waterGlasses
    ensures !u.VitaminTaken? ==> r.vitaminTaken == d.vitaminTaken
    ensures !u.SleepQuality? ==> r.sleepQuality == d.sleepQuality
    ensures !u.EnergyLevel? ==> r.energyLevel == d.energyLevel
    ensures !u.Steps? ==> r.steps == d.steps
    ensures !u.SelfCare? ==> r.selfCare == d.selfCare
    ensures u.WaterGlasses? ==> r.waterGlasses == u.n
    ensures u.VitaminTaken? ==> r.vitaminTaken == u.b
    ensures u.SleepQuality? ==> r.sleepQuality == u.n
    ensures u.EnergyLevel? ==> r.energyLevel == u.n
    ensures u.Steps? ==> r.steps == u.n
    ensures u.SelfCare? ==> r.selfCare == u.s
  {
    match u
    case WaterGlasses(n) => d.(waterGlasses := n)
    case VitaminTaken(b) => d.(vitaminTaken := b)
    case SleepQuality(n) => d.(sleepQuality := n)
    case EnergyLevel(n) => d.(energyLevel := n)
    case Steps(n) => d.(steps := n)
    case SelfCare(s) => d.(selfCare := s)
  }

  /** Setting a field to the value it already has changes nothing; setting it twice is setting it once. */
  lemma ApplyIdempotent(d: WellnessData, u: FieldUpdate)
    ensures Apply(Apply(d, u), u) == Apply(d, u)
  {
  }

  /** The minus button: `Math.max(0, waterGlasses - 1)`. */
  function WaterDown(d: WellnessData): (u: FieldUpdate)
    ensures u.WaterGlasses? && u.n >= 0
    ensures d.waterGlasses >= 1 ==> u.n == d.waterGlasses - 1
    ensures d.waterGlasses <= 0 ==> u.n == 0
  {
    WaterGlasses(if d.waterGlasses - 1 > 0 then d.waterGlasses - 1 else 0)
  }

  /** The plus button. */
  function WaterUp(d: WellnessData): (u: FieldUpdate)
    ensures u == WaterGlasses(d.waterGlasses + 1)
  {
    WaterGlasses(d.waterGlasses + 1)
  }

  /** Plus then minus restores a non-negative count. */
  lemma WaterUpThenDown(d: WellnessData)
    requires d.waterGlasses >= 0
    ensures Apply(Apply(d, WaterUp(d)), WaterDown(Apply(d, WaterUp(d)))) == d
  {
  }

  /** The steps box on blur: `parseInt(value, 10) || 0`, so `NaN` (and 0) give 0. */
  function StepsValue(text: string): (n: int)
    ensures ParseIntPrefix(text).None? ==> n == 0
    ensures ParseIntPrefix(text).Some? ==> n == ParseIntPrefix(text).value
  {
    match ParseIntPrefix(text)
    case None => 0
    case Some(v) => if v == 0 then 0 else v
  }

  /** An empty or blank steps box stores 0. */
  lemma BlankStepsAreZero(text: string)
    requires AllWhitespace(text)
    ensures StepsValue(text) == 0
  {
    TrimStartOfBlank(text);
  }

  lemma {:induction false} TrimStartOfBlank(s: string)
    requires AllWhitespace(s)
    ensures TrimStart(s) == []
  {
    if s != [] {
      TrimStartOfBlank(s[1..]);
    }
  }

  /** A count typed as its decimal text is stored as that count. */
  lemma StepsOfNumber(n: int)
    ensures StepsValue(IntToString(n)) == n
  {
    ParseIntPrefixOfIntToString(n);
  }

  /** `todayId`: `YYYY-MM-DD` of today's local date, which reads back as that date. */
  function TodayId(today: CalendarDate): (id: string)
    requires ValidDate(today)
    ensures ParseDayId(id) == Some(today)
    ensures |id| >= 7 && id[|id| - 6] == '-' && id[|id| - 3] == '-'
  {
    DayIdRoundTrip(today);
    DayId(today)
  }

  class WellnessTrackerCard {
    const user: Option<string>
    const todayId: string
    var wellnessData: WellnessData
    /** The store: the user's `dailyWellness` documents by day id. */
    var docs: map<string, WellnessData>

    constructor (user: Option<string>, today: CalendarDate, docs: map<string, WellnessData>)
      requires ValidDate(today)
      ensures this.user == user && todayId == TodayId(today) && this.docs == docs
      ensures wellnessData == DefaultWellnessData
    {
      this.user := user;
      todayId := TodayId(today);
      wellnessData := DefaultWellnessData;
      this.docs := docs;
    }

    /** The snapshot listener: the stored day, or exactly the defaults when there is no document. */
    method Snapshot()
      requires user.Some?
      modifies this`wellnessData
      ensures todayId in docs ==> wellnessData == docs[todayId]
      ensures todayId !in docs ==> wellnessData == DefaultWellnessData
    {
      wellnessData := if todayId in docs then docs[todayId] else DefaultWellnessData;
    }

    /**
     * `updateWellnessData`: the state takes the change at once; signed in, the
     * day's document is written, and a failed write leaves the state changed.
     */
    method UpdateWellnessData(u: FieldUpdate, writeSucceeds: bool)
      modifies this`wellnessData, this`docs
      ensures wellnessData == Apply(old(wellnessData), u)
      ensures docs == if user.Some? && writeSucceeds then old(docs)[todayId := wellnessData] else old(docs)
    {
      wellnessData := Apply(wellnessData, u);
      if user.Some? && writeSucceeds {
        docs := docs[todayId := wellnessData];
      }
    }

    /** After a successful write the next snapshot shows what the card shows. */
    method UpdateThenSnapshot(u: FieldUpdate)
      requires user.Some?
      modifies this`wellnessData, this`docs
      ensures wellnessData == Apply(old(wellnessData), u)
      ensures docs == old(docs)[todayId := wellnessData]
    {
      UpdateWellnessData(u, true);
      Snapshot();
    }
  }
}
