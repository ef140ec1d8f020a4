/**
 * The daily journal card: today's mood, symptom checklist and note, saved as
 * the day's document together with the user's journaling streak. Days are
 * counted as whole local days (an integer per calendar day), so "yesterday"
 * is the day number before today.
 */
module DailyJournal {
  import opened Wrappers
  import opened Text
  import opened Calendar

  const NoSymptoms: string := "No Symptoms"

  predicate NoDuplicates(xs: seq<string>) {
    forall i, j :: 0 <= i < j < |xs| ==> xs[i] != xs[j]
  }

  function Without(xs: seq<string>, x: string): (r: seq<string>)
    ensures x !in r
    ensures forall y :: y != x ==> (y in r <==> y in xs)
    ensures NoDuplicates(xs) ==> NoDuplicates(r)
    ensures x !in xs ==> r == xs
  {
    if xs == [] then []
    else if xs[0] == x then Without(xs[1..], x)
    else
      var rest := Without(xs[1..], x);
      assert NoDuplicates(xs) ==> xs[0] !in xs[1..];
      [xs[0]] + rest
  }

  /** `Without` is a filter: it distributes over concatenation, keeping the order of what it keeps. */
  lemma {:induction false} WithoutAppend(a: seq<string>, b: seq<string>, x: string)
    ensures Without(a + b, x) == Without(a, x) + Without(b, x)
  {
    if a == [] {
      assert a + b == b;
    } else {
      assert (a + b)[0] == a[0] && (a + b)[1..] == a[1..] + b;
      WithoutAppend(a[1..], b, x);
    }
  }

  /** On one element `Without` keeps it exactly when it differs from the removed value. */
  lemma WithoutSingleton(y: string, x: string)
    ensures Without([y], x) == if y == x then [] else [y]
  {
    assert [y][1..] == [];
  }

  /**
   * `handleSymptomChange`: "No Symptoms" toggles between itself alone and
   * nothing; any other symptom first drops "No Symptoms", then toggles (removed
   * if present, appended if not).
   */
  function ToggleSymptom(selected: seq<string>, symptom: string): (r: seq<string>)
    ensures NoSymptoms in r ==> r == [NoSymptoms]
    ensures symptom == NoSymptoms ==> (r == [NoSymptoms] <==> NoSymptoms !in selected) && (r == [] <==> NoSymptoms in selected)
    ensures symptom != NoSymptoms ==> (symptom in r <==> symptom !in selected)
    ensures symptom != NoSymptoms ==>
              forall s :: s != symptom && s != NoSymptoms ==> (s in r <==> s in selected)
    ensures NoDuplicates(selected) ==> NoDuplicates(r)
    ensures symptom != NoSymptoms && symptom !in Without(selected, NoSymptoms) ==>
              r == Without(selected, NoSymptoms) + [symptom]
    ensures symptom != NoSymptoms && symptom in Without(selected, NoSymptoms) ==>
              r == Without(Without(selected, NoSymptoms), symptom)
  {
    if symptom == NoSymptoms then
      (if NoSymptoms in selected then [] else [NoSymptoms])
    else
      var others := Without(selected, NoSymptoms);
      if symptom in others then Without(others, symptom) else others + [symptom]
  }

  /** Ticking a symptom that was not ticked and then unticking it restores the checklist, order included. */
  lemma ToggleTwiceRestores(selected: seq<string>, symptom: string)
    requires NoSymptoms !in selected && symptom !in selected && symptom != NoSymptoms
    ensures ToggleSymptom(ToggleSymptom(selected, symptom), symptom) == selected
  {
    var once := ToggleSymptom(selected, symptom);
    assert once == selected + [symptom];
    WithoutLast(selected, symptom);
  }

  lemma {:induction false} WithoutLast(xs: seq<string>, x: string)
    requires x !in xs
    ensures Without(xs + [x], x) == xs
  {
    if xs != [] {
      assert (xs + [x])[1..] == xs[1..] + [x];
      WithoutLast(xs[1..], x);
    } else {
      assert (xs + [x])[1..] == [];
    }
  }

  /**
   * The save guard: there is something to save when a mood is chosen (the
   * source tests `!selectedMood`, so an empty mood counts as none), a symptom is
   * ticked, or the note has a non-blank character.
   */
  function CanSave(mood: Option<string>, symptoms: seq<string>, note: string): (ok: bool)
    ensures ok <==> (mood.Some? && mood.value != "") || symptoms != [] || !AllWhitespace(note)
  {
    TrimEmptyIffBlank(note);
    (mood.Some? && mood.value != "") || |symptoms| != 0 || Trim(note) != ""
  }

  /** The streak fields of the user's profile document (`|| 0` turns a missing one into 0). */
  datatype Streaks = Streaks(current: int, longest: int, lastEntryDay: Option<int>)

  /**
   * The streak arithmetic of `handleSave`. Only the first save of a day (no
   * entry for today loaded yet) moves the streak: continued after a save
   * yesterday, otherwise restarted at 1, unless the last save was already
   * today. The longest streak is raised to the current one on every save, and
   * the last entry becomes today.
   */
  function NextStreaks(s: Streaks, today: int, hasTodaysEntry: bool): (r: Streaks)
    ensures r.lastEntryDay == Some(today)
    ensures r.longest >= r.current && r.longest >= s.longest
    ensures r.longest == s.longest || r.longest == r.current
    ensures hasTodaysEntry ==> r.current == s.current
    ensures !hasTodaysEntry && s.lastEntryDay == Some(today - 1) ==> r.current == s.current + 1
    ensures !hasTodaysEntry && s.lastEntryDay == Some(today) ==> r.current == s.current
    ensures !hasTodaysEntry && s.lastEntryDay != Some(today - 1) && s.lastEntryDay != Some(today) ==> r.current == 1
  {
    var current :=
      if hasTodaysEntry then s.current
      else if s.lastEntryDay == Some(today - 1) then s.current + 1
      else if s.lastEntryDay.None? || s.lastEntryDay != Some(today) then 1
      else s.current;
    var longest := if current > s.longest then current else s.longest;
    Streaks(current, longest, Some(today))
  }

  /** The first save of each of `n` consecutive days, starting `first`. */
  function SaveDaily(s: Streaks, first: int, n: nat): Streaks
    decreases n
  {
    if n == 0 then s else NextStreaks(SaveDaily(s, first, n - 1), first + n - 1, false)
  }

  /**
   * Saving on `n` consecutive days straight after a save the day before adds `n`
   * to the streak; after a gap (or never) the streak counts exactly those `n` days.
   */
  lemma {:induction false} ConsecutiveDaysExtendStreak(s: Streaks, first: int, n: nat)
    requires n >= 1
    ensures s.lastEntryDay == Some(first - 1) ==> SaveDaily(s, first, n).current == s.current + n
    ensures s.lastEntryDay != Some(first - 1) && s.lastEntryDay != Some(first) ==> SaveDaily(s, first, n).current == n
    ensures SaveDaily(s, first, n).longest >= SaveDaily(s, first, n).current
    ensures SaveDaily(s, first, n).lastEntryDay == Some(first + n - 1)
  {
    if n > 1 {
      ConsecutiveDaysExtendStreak(s, first, n - 1);
    }
  }

  /** The card's own `format`: only the `yyyy-MM-dd` pattern is supported, anything else gives "". */
  function Format(date: CalendarDate, pattern: string): (r: string)
    requires ValidDate(date)
    ensures pattern == "yyyy-MM-dd" ==> ParseDayId(r) == Some(date)
    ensures pattern != "yyyy-MM-dd" ==> r == ""
  {
    if pattern == "yyyy-MM-dd" then
      DayIdRoundTrip(date);
      DayId(date)
    else ""
  }

  /** A day's document: `date` (a timestamp) is not modelled. */
  datatype JournalEntry = JournalEntry(mood: Option<string>, symptoms: seq<string>, journalText: string)

  datatype SaveOutcome = SignedOut | NothingToSave | Saved | SaveFailed

  class DailyJournalCard {
    const user: Option<string>
    /** `todayId` and the number of today's date. */
    const todayId: string
    const today: int
    /** Today's document as the snapshot listener last delivered it. */
    var todaysEntry: Option<JournalEntry>
    var selectedMood: Option<string>
    var selectedSymptoms: seq<string>
    var journalText: string
    /** The store: the user's `dailyJournal` documents by day id and the profile's streak fields. */
    var entries: map<string, JournalEntry>
    var profile: Streaks

    constructor (user: Option<string>, date: CalendarDate, today: int, entries: map<string, JournalEntry>, profile: Streaks)
      requires ValidDate(date)
      ensures this.user == user && todayId == DayId(date) && this.today == today
      ensures this.entries == entries && this.profile == profile
      ensures todaysEntry.None? && selectedMood.None? && selectedSymptoms == [] && journalText == ""
    {
      this.user := user;
      todayId := Format(date, "yyyy-MM-dd");
      this.today := today;
      todaysEntry := None;
      selectedMood := None;
      selectedSymptoms := [];
      journalText := "";
      this.entries := entries;
      this.profile := profile;
    }

    /** The snapshot listener on today's document: the form shows what is stored, or a blank form. */
    method EntrySnapshot()
      requires user.Some?
      modifies this`todaysEntry, this`selectedMood, this`selectedSymptoms, this`journalText
      ensures todaysEntry == (if todayId in entries then Some(entries[todayId]) else None)
      ensures todayId in entries ==>
                selectedMood == entries[todayId].mood && selectedSymptoms == entries[todayId].symptoms
                && journalText == entries[todayId].journalText
      ensures todayId !in entries ==> selectedMood.None? && selectedSymptoms == [] && journalText == ""
    {
      if todayId in entries {
        var e := entries[todayId];
        todaysEntry := Some(e);
        selectedMood, selectedSymptoms, journalText := e.mood, e.symptoms, e.journalText;
      } else {
        todaysEntry := None;
        selectedMood, selectedSymptoms, journalText := None, [], "";
      }
    }

    method HandleSymptomChange(symptom: string)
      modifies this`selectedSymptoms
      ensures selectedSymptoms == ToggleSymptom(old(selectedSymptoms), symptom)
    {
      selectedSymptoms := ToggleSymptom(selectedSymptoms, symptom);
    }

    /**
     * `handleSave`: signed out nothing happens; an empty form is refused; else one
     * batch writes today's entry and the new streaks, all or nothing.
     */
    method HandleSave(commitSucceeds: bool) returns (outcome: SaveOutcome)
      modifies this`entries, this`profile
      ensures user.None? ==> outcome == SignedOut
      ensures user.Some? && !CanSave(selectedMood, selectedSymptoms, journalText) ==> outcome == NothingToSave
      ensures outcome != Saved ==> entries == old(entries) && profile == old(profile)
      ensures user.Some? && CanSave(selectedMood, selectedSymptoms, journalText) ==>
                if commitSucceeds then
                  outcome == Saved
                  && entries == old(entries)[todayId := JournalEntry(selectedMood, selectedSymptoms, journalText)]
                  && profile == NextStreaks(old(profile), today, todaysEntry.Some?)
                else outcome == SaveFailed
    {
      if user.None? {
        return SignedOut;
      }
      if !CanSave(selectedMood, selectedSymptoms, journalText) {
        return NothingToSave;
      }
      var streaks := NextStreaks(profile, today, todaysEntry.Some?);
      if commitSucceeds {
        entries := entries[todayId := JournalEntry(selectedMood, selectedSymptoms, journalText)];
        profile := streaks;
        outcome := Saved;
      } else {
        outcome := SaveFailed;
      }
    }
  }
}
