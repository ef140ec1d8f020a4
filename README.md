# StorkWatch dashboard: a Dafny model

This project models the dashboard of the StorkWatch pregnancy tracker, a
React application whose cards keep their state in component state, in the
browser's local storage and in a per-user document store. It covers:

- the page, which loads the due date and derives the current week and trimester;
- the due-date calculator card;
- the contraction timer, with its session statistics and the local-storage mirror;
- the kick counter;
- the daily journal and its entry streak;
- the daily missions and their completion streak;
- the weight tracker;
- the wellness tracker;
- the symptom log;
- the trimester task list;
- the cards that choose a row of a data table for the current week or day: the daily update, the weekly update, the size comparison and the question of the day.

How the model is built:

- Pure computations are functions. Specifications are functions, and lemmas relate them.
- Each card whose handlers change state step by step is a `class`. Its fields are the card's state plus the parts of the store it reads and writes (maps by document id, or the profile fields).
- Every handler is a `method` whose `ensures` gives the whole new state.
- A store write is a boolean parameter that says whether the write succeeded.
- Time is an integer count of epoch milliseconds, with a fixed 24-hour day.
- The JavaScript behaviours the cards rely on are written out:
  - division that truncates toward zero, and `%` with the sign of the dividend;
  - `padStart`, `trim` and its whitespace set;
  - `parseInt` as a prefix parse;
  - `parseFloat` on plain decimals;
  - `String(number)` as the canonical decimal;
  - the date-fns day and week differences.

Modules:

| module | file | models |
|---|---|---|
| `Wrappers` | wrappers.dfy | `Option` |
| `Text` | text.dfy | digits, `padStart`, `trim`, integer text |
| `Numbers` | numbers.dfy | truncating division, `parseFloat`, `String(number)`, `parseInt` prefixes |
| `Calendar` | calendar.dfy | dates, `YYYY-MM-DD` ids, the start of a day |
| `Arrays` | arrays.dfy | `Array.prototype.find` / `findIndex` |
| `ContractionSession` | contraction_session.dfy | the contraction timer's state transitions and `calculateStats` |
| `ContractionDisplay` | contraction_display.dfy | the contraction timer's `MM:SS` display |
| `ContractionTimer` | contraction_timer.dfy | the contraction timer card |
| `KickCounter` | kick_counter.dfy | the kick counter card |
| `DailyJournal` | daily_journal.dfy | the daily journal card |
| `DailyMissions` | daily_missions.dfy | the daily missions card |
| `TaskList` | task_list.dfy | the pregnancy to-do list card |
| `SymptomLog` | symptom_log.dfy | the symptom log card |
| `WeightTracker` | weight_tracker.dfy | the weight tracker card |
| `WellnessTracker` | wellness_tracker.dfy | the wellness tracker card |
| `DueDate` | due_date.dfy | the due-date card |
| `DashboardPage` | dashboard_page.dfy | the dashboard page |
| `DailyUpdate` | daily_update.dfy | the daily update card and its table |
| `WeeklyUpdate` | weekly_update.dfy | the weekly update card |
| `SizeViz` | size_viz.dfy | the size comparison card |
| `QuestionOfTheDay` | question_of_the_day.dfy | the question of the day card |

Behaviours of the code worth noting:

- A contraction's duration is the one-second tick counter, not the time from its start to its end.
- A contraction's interval is measured from the previous contraction's start.
- The card has no merge, fetch or delete of saved contractions.
- `calculateStats` averages the durations over the finished contractions only.
  - With no finished contraction that average is `NaN`; the model gives `None`.
- The statistics' variance step reduces the interval list without an initial value. That throws on an empty list, hence `CalculateStats`'s precondition.
  - `StatsDefinedOnSessions` shows every session the card can reach meets it.
- The page computes the week from the raw current instant, while the due-date card first takes the start of today.
  - `PageWeekAtMostOneAhead` bounds the difference at one week.

## Model

| member | source | states |
|---|---|---|
| Text.PaddedNatValue | src/components/dashboard/daily-journal-card.tsx:45 | a number padded to two digits reads back as that number, and is two characters long when below 100 |
| Text.PadStart2 | src/components/dashboard/wellness-tracker-card.tsx:44 | `padStart(2, '0')`: the text keeps its length when it has two or more characters and is otherwise filled to two, with only zeros added and the original text at the end |
| Text.Trim | src/components/dashboard/symptom-log-card.tsx:33 | `trim()`; its properties are stated by `TrimIsInfix`, `TrimEmptyIffBlank`, `TrimmedEnds` and `TrimIdempotent` |
| Text.ParseIntToString | src/components/dashboard/task-list-card.tsx:39 | the decimal text of any integer parses back to it |
| Text.TrimIsInfix | src/components/dashboard/symptom-log-card.tsx:33 | `trim` returns a contiguous piece of its input |
| Text.TrimEmptyIffBlank | src/components/dashboard/symptom-log-card.tsx:33 | the trimmed text is empty exactly when the input is all whitespace |
| Text.TrimmedEnds | src/components/dashboard/symptom-log-card.tsx:44 | a non-empty trimmed text neither starts nor ends with whitespace |
| Text.TrimIdempotent | src/components/dashboard/symptom-log-card.tsx:44 | trimming twice is trimming once |
| Numbers.TruncDiv | src/components/dashboard/due-date-card.tsx:72 | the quotient rounds toward zero: the remainder has the dividend's sign and is smaller than the divisor |
| Numbers.JsRem | src/components/dashboard/kick-counter-card.tsx:28 | `%` keeps the sign of the dividend and completes the truncating quotient |
| Numbers.JsRemRealSixty | src/components/dashboard/contraction-timer-card.tsx:35-39 | the seconds part of a non-negative duration is below 60 and adds back up to it with the minutes |
| Numbers.ParseDecimalSound | src/components/dashboard/weight-tracker-card.tsx:105 | whatever `parseFloat` accepts is a well-formed decimal |
| Numbers.ParseDecimal | src/components/dashboard/weight-tracker-card.tsx:86 | `parseFloat` on a number field's text; see `ParseDecimalSound` (what it accepts is well formed and is its own text) and `ParseDecimalText` (every well-formed decimal text is accepted) |
| Numbers.ParseDecimalText | src/components/dashboard/weight-tracker-card.tsx:110 | the text of a well-formed decimal parses back to it |
| Numbers.Canonical | src/components/dashboard/weight-tracker-card.tsx:152 | `String(number)` keeps the value, with no leading zeros and no trailing fractional zeros |
| Numbers.CanonicalReadsBack | src/components/dashboard/weight-tracker-card.tsx:150-155 | the text shown for a stored weight parses back to the same value and the same canonical form |
| Numbers.CanonicalIdempotent | src/components/dashboard/weight-tracker-card.tsx:152 | the canonical form is already canonical |
| Numbers.ParseIntPrefixOfIntToString | src/components/dashboard/wellness-tracker-card.tsx:177 | `parseInt` of an integer's decimal text gives that integer |
| Numbers.ParseIntPrefix | src/components/dashboard/wellness-tracker-card.tsx:177 | `parseInt(text, 10)`; see `ParseIntPrefixOfIntToString` (it reads back the decimal text of every integer) |
| Calendar.DayIdRoundTrip | src/components/dashboard/wellness-tracker-card.tsx:42-45 | a `YYYY-MM-DD` day id parses back to its date |
| Calendar.DayId | src/components/dashboard/wellness-tracker-card.tsx:42-45 | the `YYYY-MM-DD` id of the day; see `DayIdRoundTrip` (it parses back to the date) and `DayIdInjective` (different dates, different ids) |
| Calendar.DayIdInjective | src/components/dashboard/daily-journal-card.tsx:41 | two different dates never share a document id |
| Calendar.MidnightOf | src/components/dashboard/due-date-card.tsx:37-38 | the start of the day holding an instant is a whole-day boundary, at most a day before it, on the same day |
| Arrays.FindIndex | src/components/dashboard/weekly-update-card.tsx:19 | the first element satisfying the test, or none exactly when no element does |
| ContractionSession.Start | src/components/dashboard/contraction-timer-card.tsx:82-100 | starting appends one in-progress contraction at `now` with the slider's intensity and the interval from the previous start, leaves earlier ones alone, and zeroes the counter |
| ContractionSession.IntervalSeconds | src/components/dashboard/contraction-timer-card.tsx:89 | the seconds between two starts: times 1000 it is the gap in milliseconds, and it is never negative when the later start is not earlier |
| ContractionSession.NewContraction | src/components/dashboard/contraction-timer-card.tsx:83-91 | the new contraction starts now with the slider's intensity, has no end and no duration, and has an interval exactly when there is a previous contraction, equal to the gap since that one's start |
| ContractionSession.Tick | src/components/dashboard/contraction-timer-card.tsx:97-99 | a tick adds one second to the counter while timing and changes nothing else |
| ContractionSession.Finalize | src/components/dashboard/contraction-timer-card.tsx:108-116 | only the last contraction changes: it gets the end time and the counter as its duration |
| ContractionSession.Stop | src/components/dashboard/contraction-timer-card.tsx:102-117 | stopping ends timing, keeps the counter, and finalizes the last contraction |
| ContractionSession.Clear | src/components/dashboard/contraction-timer-card.tsx:127-134 | clearing empties the list and stops timing; counter and intensity stay |
| ContractionSession.StartStop | src/components/dashboard/contraction-timer-card.tsx:119-125 | a press flips the timing flag and keeps the intensity; while timing it finalizes the last contraction, otherwise it appends one and zeroes the counter |
| ContractionSession.DisplayedSeconds | src/components/dashboard/contraction-timer-card.tsx:215 | the big display shows the live counter while timing, else the last contraction's duration, or 0 when there is none |
| ContractionSession.SetIntensity | src/components/dashboard/contraction-timer-card.tsx:230-238 | the slider sets only the intensity |
| ContractionSession.InitialSessionInvariant | src/components/dashboard/contraction-timer-card.tsx:47-50 | the initial state satisfies the session invariant |
| ContractionSession.StartKeepsInvariant | src/components/dashboard/contraction-timer-card.tsx:82-100 | starting keeps intervals measured from the previous start, starts in order, and only the last contraction in progress |
| ContractionSession.StopKeepsInvariant | src/components/dashboard/contraction-timer-card.tsx:102-117 | stopping keeps the session invariant |
| ContractionSession.StartStopKeepsInvariant | src/components/dashboard/contraction-timer-card.tsx:119-125 | a press of the start/stop button keeps the session invariant |
| ContractionSession.TickKeepsInvariant | src/components/dashboard/contraction-timer-card.tsx:97-99 | a tick keeps the session invariant |
| ContractionSession.ClearKeepsInvariant | src/components/dashboard/contraction-timer-card.tsx:127-134 | clearing keeps the session invariant |
| ContractionSession.RunCountsPresses | src/components/dashboard/contraction-timer-card.tsx:119-125 | after n presses there are ceil(n/2) contractions, floor(n/2) finished, and timing means n is odd with the last one open |
| ContractionSession.TicksWhileTiming | src/components/dashboard/contraction-timer-card.tsx:97-99 | n ticks while timing raise the counter by exactly n |
| ContractionSession.StartTicksStop | src/components/dashboard/contraction-timer-card.tsx:82-117 | start, n ticks and stop record one contraction with that start and end, duration n, shown as n |
| ContractionSession.Durations | src/components/dashboard/contraction-timer-card.tsx:186 | the kept durations are empty exactly when no contraction has one |
| ContractionSession.AverageDuration | src/components/dashboard/contraction-timer-card.tsx:187-188 | the total of the kept durations over their count: the mean times the count is the total, and there is none exactly when no duration is kept (`0 / 0` is `NaN`) |
| ContractionSession.DurationsAppend | src/components/dashboard/contraction-timer-card.tsx:186 | the duration filter distributes over concatenation, so kept durations stay in list order |
| ContractionSession.DurationsOfOne | src/components/dashboard/contraction-timer-card.tsx:186 | a contraction contributes its duration exactly when it has one, a zero duration included |
| ContractionSession.DurationsAllPresent | src/components/dashboard/contraction-timer-card.tsx:186 | when every duration is present the filter keeps them all, in order |
| ContractionSession.StoppedSessionDurations | src/components/dashboard/contraction-timer-card.tsx:186 | between timings every contraction of a reachable session has its duration kept, pointwise |
| ContractionSession.Intervals | src/components/dashboard/contraction-timer-card.tsx:190 | the kept intervals are empty exactly when no contraction has one |
| ContractionSession.SquaredDeviations | src/components/dashboard/contraction-timer-card.tsx:195 | one squared distance from the mean per interval |
| ContractionSession.Mean | src/components/dashboard/contraction-timer-card.tsx:191 | the average interval: times the count it is the total |
| ContractionSession.Variance | src/components/dashboard/contraction-timer-card.tsx:195 | the population variance of the intervals: never negative, and times the count it is the sum of squared distances from the mean |
| ContractionSession.CalculateStats | src/components/dashboard/contraction-timer-card.tsx:184-198 | zeros below two contractions; otherwise the mean duration (none exactly when no duration), the mean interval, and regular exactly when the variance is below 3600 |
| ContractionSession.IntervalsAllPresent | src/components/dashboard/contraction-timer-card.tsx:190 | when every interval is present the filter keeps them all, in order |
| ContractionSession.StatsDefinedOnSessions | src/components/dashboard/contraction-timer-card.tsx:184-198 | on any reachable session of two or more contractions, the intervals are non-empty and are the gaps between starts, and the duration average exists |
| ContractionSession.RegularWhenAllNearMean | src/components/dashboard/contraction-timer-card.tsx:195-196 | all intervals within a minute of the mean give a regular pattern |
| ContractionSession.IrregularWhenOneFarFromMean | src/components/dashboard/contraction-timer-card.tsx:195-196 | one interval far enough from the mean makes the pattern irregular |
| ContractionSession.EvenSpacingIsRegular | src/components/dashboard/contraction-timer-card.tsx:191-196 | even spacing averages to the spacing with zero variance |
| ContractionSession.CloseIntervalsAreRegular | src/components/dashboard/contraction-timer-card.tsx:191-196 | 120, 125, 118, 122 s average 121.25 s and are regular |
| ContractionSession.ScatteredIntervalsAreIrregular | src/components/dashboard/contraction-timer-card.tsx:191-196 | 60, 300, 45, 280 s average 171.25 s and are irregular |
| ContractionSession.MeanWithinBounds | src/components/dashboard/contraction-timer-card.tsx:191 | the average interval lies between the smallest and the largest |
| ContractionDisplay.FormatDurationReadsBack | src/components/dashboard/contraction-timer-card.tsx:35-39 | `MM:SS` reads back as the whole seconds, five characters below 100 minutes |
| ContractionDisplay.FormatDuration | src/components/dashboard/contraction-timer-card.tsx:35-39 | the `MM:SS` display; see `FormatDurationReadsBack` (it reads back as the whole seconds, five characters below 100 minutes) |
| ContractionTimer.StorageKeyInjective | src/components/dashboard/contraction-timer-card.tsx:41 | different users never share a local-storage key |
| ContractionTimer.StorageKey | src/components/dashboard/contraction-timer-card.tsx:58 | the per-user key is the fixed prefix and an underscore, followed by the user id unchanged |
| ContractionTimer.Synced | src/components/dashboard/contraction-timer-card.tsx:68-79 | a non-empty list is stored under the user's key, an empty one removes it, signed out nothing changes, other keys untouched |
| ContractionTimer.RestoredAfterSync | src/components/dashboard/contraction-timer-card.tsx:55-65 | the mirrored session is what the next mount restores |
| ContractionTimer.Restored | src/components/dashboard/contraction-timer-card.tsx:55-65 | what the card loads on mount; see `RestoredAfterSync` (the mirrored session comes back) and `Remount` |
| ContractionTimer.SyncedIdempotent | src/components/dashboard/contraction-timer-card.tsx:68-79 | syncing the same list again changes nothing |
| ContractionTimer.ToRecord | src/components/dashboard/contraction-timer-card.tsx:151-163 | a record carries the owner and session date and describes the contraction, except that an end of 0 is stored as null |
| ContractionTimer.BuildBatch | src/components/dashboard/contraction-timer-card.tsx:146-165 | one record per contraction, in order, all with the same owner and session date |
| ContractionTimer.Remount | src/components/dashboard/contraction-timer-card.tsx:55-79 | a remounted card shows the session the old card held when signed in, none otherwise |
| ContractionTimer.ContractionTimerCard.constructor | src/components/dashboard/contraction-timer-card.tsx:47-65 | mounting restores the stored session, not timing |
| ContractionTimer.ContractionTimerCard.StartTimer | src/components/dashboard/contraction-timer-card.tsx:82-100 | the card performs `Start`, then the storage sync |
| ContractionTimer.ContractionTimerCard.Tick | src/components/dashboard/contraction-timer-card.tsx:97-99 | the card performs `Tick` |
| ContractionTimer.ContractionTimerCard.StopTimer | src/components/dashboard/contraction-timer-card.tsx:102-117 | the card performs `Stop`, then the storage sync |
| ContractionTimer.ContractionTimerCard.HandleStartStop | src/components/dashboard/contraction-timer-card.tsx:119-125 | the card performs `StartStop` and keeps the session invariant |
| ContractionTimer.ContractionTimerCard.HandleClearSession | src/components/dashboard/contraction-timer-card.tsx:127-134 | the card performs `Clear` and removes the stored session |
| ContractionTimer.ContractionTimerCard.SetIntensity | src/components/dashboard/contraction-timer-card.tsx:230-238 | the card performs `SetIntensity` |
| ContractionTimer.ContractionTimerCard.HandleSaveSession | src/components/dashboard/contraction-timer-card.tsx:136-182 | nothing to save changes nothing; a committed batch stores every contraction and clears the session; a failed one keeps it |
| KickCounter.ElapsedSeconds | src/components/dashboard/kick-counter-card.tsx:48 | the whole seconds since the start, never negative after the start |
| KickCounter.FormatDurationReadsBack | src/components/dashboard/kick-counter-card.tsx:26-30 | `<m>m <s>s` reads back as the duration |
| KickCounter.FormatDuration | src/components/dashboard/kick-counter-card.tsx:26-30 | the `<m>m <s>s` text; see `FormatDurationReadsBack` (it reads back as the same number of seconds) |
| KickCounter.RecentSessions | src/components/dashboard/kick-counter-card.tsx:63-67 | the latest ten sessions, newest first |
| KickCounter.KickCounterCard.constructor | src/components/dashboard/kick-counter-card.tsx:35-43 | no session, zero counts |
| KickCounter.KickCounterCard.HandleStartSession | src/components/dashboard/kick-counter-card.tsx:100-105 | counters zeroed, start remembered, timer scheduled |
| KickCounter.KickCounterCard.TimerTick | src/components/dashboard/kick-counter-card.tsx:44-51 | the elapsed time is recomputed from the start |
| KickCounter.KickCounterCard.StopTimer | src/components/dashboard/kick-counter-card.tsx:53-58 | afterwards no timer is scheduled |
| KickCounter.KickCounterCard.HandleKick | src/components/dashboard/kick-counter-card.tsx:151-154 | a kick counts only during a session |
| KickCounter.KickCounterCard.HandleStopSession | src/components/dashboard/kick-counter-card.tsx:107-149 | the session always ends; with kicks it is written (when signed in and the write succeeds) with its count and duration, without kicks nothing is written |
| DailyJournal.Without | src/components/dashboard/daily-journal-card.tsx:96-98 | removes every copy of the symptom and nothing else |
| DailyJournal.WithoutAppend | src/components/dashboard/daily-journal-card.tsx:96-98 | the removal is a filter: it distributes over concatenation, keeping the order of what remains |
| DailyJournal.WithoutSingleton | src/components/dashboard/daily-journal-card.tsx:96-98 | a single element is kept exactly when it is not the removed symptom |
| DailyJournal.ToggleSymptom | src/components/dashboard/daily-journal-card.tsx:91-103 | "no symptoms" is exclusive and toggles alone; another symptom flips, dropping "no symptoms": a new one is appended at the end of the filtered list, a ticked one is filtered out; no duplicates appear |
| DailyJournal.ToggleTwiceRestores | src/components/dashboard/daily-journal-card.tsx:91-103 | ticking and unticking a symptom restores the list, order included |
| DailyJournal.CanSave | src/components/dashboard/daily-journal-card.tsx:107-110 | a save goes ahead exactly when there is a mood, a symptom or a non-blank note |
| DailyJournal.NextStreaks | src/components/dashboard/daily-journal-card.tsx:118-133 | a second save today keeps the streak, the day after the last entry extends it, a gap restarts it at 1; the longest never falls and never trails the current |
| DailyJournal.ConsecutiveDaysExtendStreak | src/components/dashboard/daily-journal-card.tsx:118-133 | daily saves on n consecutive days add n to the streak (or make it n after a gap) |
| DailyJournal.Format | src/components/dashboard/daily-journal-card.tsx:42-48 | `yyyy-MM-dd` gives the date's id, any other pattern gives "" |
| DailyJournal.DailyJournalCard.constructor | src/components/dashboard/daily-journal-card.tsx:33-41 | a blank form for today's id |
| DailyJournal.DailyJournalCard.EntrySnapshot | src/components/dashboard/daily-journal-card.tsx:57-69 | the form shows today's stored entry, or a blank form |
| DailyJournal.DailyJournalCard.HandleSymptomChange | src/components/dashboard/daily-journal-card.tsx:91-103 | the checklist performs `ToggleSymptom` |
| DailyJournal.DailyJournalCard.HandleSave | src/components/dashboard/daily-journal-card.tsx:105-158 | signed out or empty, nothing is written; a committed save stores today's entry and the next streaks together; a failed one stores neither |
| DailyMissions.GetRandomMissions | src/components/dashboard/daily-missions-card.tsx:32-35 | min(n, catalogue size) unchecked missions drawn without replacement: they are fresh copies of a sub-multiset of the catalogue |
| DailyMissions.DrawnMissionsDistinct | src/components/dashboard/daily-missions-card.tsx:33-34 | from a catalogue without repeats the drawn missions are pairwise different |
| DailyMissions.ToggleMission | src/components/dashboard/daily-missions-card.tsx:87-89 | only the missions with that id flip |
| DailyMissions.ToggleTwice | src/components/dashboard/daily-missions-card.tsx:87-89 | checking twice undoes the check |
| DailyMissions.CompletedCount | src/components/dashboard/daily-missions-card.tsx:122 | the count reaches the list's length exactly when all are done |
| DailyMissions.AllCompleted | src/components/dashboard/daily-missions-card.tsx:92 | `every(m => m.isCompleted)`; see `CompletedCount` (all are done exactly when the count reaches the length) and `Progress` (100 exactly when a non-empty list is all done) |
| DailyMissions.Progress | src/components/dashboard/daily-missions-card.tsx:122 | completed ÷ total × 100 for a non-empty list, 0 for an empty one; 100 exactly when all are done, 0 exactly when none are |
| DailyMissions.CompleteDay | src/components/dashboard/daily-missions-card.tsx:98-117 | a day already counted is not counted twice; otherwise the streak grows by one |
| DailyMissions.CompleteDayOncePerDay | src/components/dashboard/daily-missions-card.tsx:98-117 | completing twice on one day counts once |
| DailyMissions.DailyMissionsCard.constructor | src/components/dashboard/daily-missions-card.tsx:40-45 | no missions, streak 0 |
| DailyMissions.DailyMissionsCard.FetchMissions | src/components/dashboard/daily-missions-card.tsx:50-81 | today's stored missions are shown, or fresh ones are drawn and stored |
| DailyMissions.DailyMissionsCard.HandleMissionCheck | src/components/dashboard/daily-missions-card.tsx:86-120 | the mission flips and the day's document is stored; the first full completion of a day raises the streak when its commit succeeds |
| TaskList.ToggleTask | src/components/dashboard/task-list-card.tsx:32 | only that task's box flips |
| TaskList.IsChecked | src/components/dashboard/task-list-card.tsx:65 | `!!checkedTasks[id]`; see `ToggleTask` (a click flips it for that id only) and `ClicksParity` |
| TaskList.ToggleTwiceRestoresDisplay | src/components/dashboard/task-list-card.tsx:30-37 | two clicks show every box as before |
| TaskList.ClicksParity | src/components/dashboard/task-list-card.tsx:30-37 | a box is checked exactly when it was clicked an odd number of times, relative to its start |
| TaskList.DefaultAccordionValue | src/components/dashboard/task-list-card.tsx:39 | `trimester-` followed by the trimester's number |
| TaskList.AccordionValueInjective | src/components/dashboard/task-list-card.tsx:39 | each trimester opens its own section |
| TaskList.TaskListCard.constructor | src/components/dashboard/task-list-card.tsx:28 | nothing checked |
| TaskList.TaskListCard.HandleCheckChange | src/components/dashboard/task-list-card.tsx:30-37 | the map performs `ToggleTask` |
| SymptomLog.SymptomLogCard.constructor | src/components/dashboard/symptom-log-card.tsx:27-29 | empty note and empty list |
| SymptomLog.SymptomLogCard.SetNotes | src/components/dashboard/symptom-log-card.tsx:69 | the note box takes the text |
| SymptomLog.SymptomLogCard.HandleAddLog | src/components/dashboard/symptom-log-card.tsx:32-54 | a blank note is refused and nothing changes; otherwise the trimmed note (non-empty, no whitespace at either end) goes in front of the old list and the box empties |
| WeightTracker.LatestEntry | src/components/dashboard/weight-tracker-card.tsx:176 | none exactly for no entries; otherwise the last entry, which on date-ordered entries is no earlier than any other |
| WeightTracker.LatestAfterNewEntry | src/components/dashboard/weight-tracker-card.tsx:176 | an entry dated after all others keeps the list date-ordered and becomes the latest |
| WeightTracker.TotalGain | src/components/dashboard/weight-tracker-card.tsx:177 | 0 without a starting weight or entries, else the latest weight less the starting one |
| WeightTracker.OfUnit | src/components/dashboard/weight-tracker-card.tsx:180 | exactly the entries of that unit |
| WeightTracker.OfUnitKeepsOrder | src/components/dashboard/weight-tracker-card.tsx:179-181 | filtering keeps date order |
| WeightTracker.ChartData | src/components/dashboard/weight-tracker-card.tsx:179-181 | one point per entry of the unit, with its date and weight |
| WeightTracker.ChartDataInDateOrder | src/components/dashboard/weight-tracker-card.tsx:63-77 | the chart is in date order |
| WeightTracker.RecentIsChartReversed | src/components/dashboard/weight-tracker-card.tsx:323 | the history list is the chart's entries, newest first |
| WeightTracker.RecentEntries | src/components/dashboard/weight-tracker-card.tsx:323 | the history list; see `RecentIsChartReversed` (the chart's entries of that unit, newest first) |
| WeightTracker.FormDoc | src/components/dashboard/weight-tracker-card.tsx:110-116 | the stored weight has the parsed value; date, unit and owner as given |
| WeightTracker.AcceptsWeight | src/components/dashboard/weight-tracker-card.tsx:86 | the guard of both saves; see `HandleAddOrUpdateEntry` and `HandleSaveStartingWeight`, which save exactly when it holds (and the write succeeds) |
| WeightTracker.WeightTrackerCard.constructor | src/components/dashboard/weight-tracker-card.tsx:33-44 | an empty form dated today in pounds |
| WeightTracker.WeightTrackerCard.ProfileSnapshot | src/components/dashboard/weight-tracker-card.tsx:52-61 | past onboarding, the form takes the profile's unit |
| WeightTracker.WeightTrackerCard.ShowOnboarding | src/components/dashboard/weight-tracker-card.tsx:54-59 | a falsy starting weight shows onboarding; see `ProfileSnapshot` (otherwise the form takes the stored unit) |
| WeightTracker.WeightTrackerCard.StartEditing | src/components/dashboard/weight-tracker-card.tsx:150-155 | the form takes the entry, and its weight text parses back to the same value |
| WeightTracker.WeightTrackerCard.CancelEditing | src/components/dashboard/weight-tracker-card.tsx:157-161 | no entry edited, empty box, today's date |
| WeightTracker.WeightTrackerCard.HandleAddOrUpdateEntry | src/components/dashboard/weight-tracker-card.tsx:104-137 | invalid input changes nothing; valid input updates the edited document or adds a new one, and resets the form on success |
| WeightTracker.WeightTrackerCard.HandleSaveStartingWeight | src/components/dashboard/weight-tracker-card.tsx:85-102 | saved exactly when valid and written; the profile takes the weight and unit |
| WeightTracker.WeightTrackerCard.HandleDeleteEntry | src/components/dashboard/weight-tracker-card.tsx:139-148 | a successful delete removes that document only |
| WeightTracker.WeightTrackerCard.HandleUnitChange | src/components/dashboard/weight-tracker-card.tsx:163-174 | the form's unit always changes; the profile only past onboarding |
| WellnessTracker.Apply | src/components/dashboard/wellness-tracker-card.tsx:67-70 | exactly the named field takes the value |
| WellnessTracker.ApplyIdempotent | src/components/dashboard/wellness-tracker-card.tsx:67-70 | applying a change twice is applying it once |
| WellnessTracker.WaterDown | src/components/dashboard/wellness-tracker-card.tsx:113 | one glass fewer, never below 0 |
| WellnessTracker.WaterUp | src/components/dashboard/wellness-tracker-card.tsx:115 | one glass more |
| WellnessTracker.WaterUpThenDown | src/components/dashboard/wellness-tracker-card.tsx:113-115 | plus then minus restores the day |
| WellnessTracker.StepsValue | src/components/dashboard/wellness-tracker-card.tsx:177 | the parsed prefix, or 0 when nothing parses |
| WellnessTracker.BlankStepsAreZero | src/components/dashboard/wellness-tracker-card.tsx:177 | an empty or blank box stores 0 |
| WellnessTracker.StepsOfNumber | src/components/dashboard/wellness-tracker-card.tsx:177 | a typed count is stored as that count |
| WellnessTracker.TodayId | src/components/dashboard/wellness-tracker-card.tsx:42-45 | the id reads back as today's date |
| WellnessTracker.WellnessTrackerCard.constructor | src/components/dashboard/wellness-tracker-card.tsx:27-45 | the defaults, for today's id |
| WellnessTracker.WellnessTrackerCard.Snapshot | src/components/dashboard/wellness-tracker-card.tsx:51-57 | the stored day, or exactly the defaults |
| WellnessTracker.WellnessTrackerCard.UpdateWellnessData | src/components/dashboard/wellness-tracker-card.tsx:67-82 | the state takes the change; a successful write stores it under today's id |
| WellnessTracker.WellnessTrackerCard.UpdateThenSnapshot | src/components/dashboard/wellness-tracker-card.tsx:51-82 | after a successful write the snapshot shows the card's state |
| DueDate.SubWeeksUndoesAddWeeks | src/app/dashboard/page.tsx:49 | subtracting the weeks added gives the date back |
| DueDate.AddWeeks | src/components/dashboard/due-date-card.tsx:42 | date-fns `addWeeks`; see `SubWeeksUndoesAddWeeks` and `DueDateFromLmp` |
| DueDate.SubWeeks | src/app/dashboard/page.tsx:49 | date-fns `subWeeks`; see `SubWeeksUndoesAddWeeks` (it undoes `AddWeeks`) |
| DueDate.DifferenceInDays | src/components/dashboard/due-date-card.tsx:73 | the whole days between two instants, rounded toward zero |
| DueDate.DifferenceInWeeks | src/components/dashboard/due-date-card.tsx:72 | the full weeks in the whole days between two instants, rounded toward zero on either side |
| DueDate.WeeksPregnant | src/components/dashboard/due-date-card.tsx:72 | 40 less the full weeks to the due date: at most 40 before the due date and at least 40 after it |
| DueDate.DaysRemaining | src/components/dashboard/due-date-card.tsx:73 | the full days left before the due date, never negative before it and never positive after it |
| DueDate.DueDateFromLmp | src/components/dashboard/due-date-card.tsx:42 | the due date is exactly 280 days after the LMP |
| DueDate.DaysToGo | src/components/dashboard/due-date-card.tsx:91 | the remaining days, never below 0 |
| DueDate.Trimester | src/components/dashboard/due-date-card.tsx:75 | 1 to 3: first up to week 13, third after week 27 |
| DueDate.TrimesterMonotone | src/components/dashboard/due-date-card.tsx:75 | later weeks never fall in an earlier trimester |
| DueDate.LmpTodayFigures | src/components/dashboard/due-date-card.tsx:40-75 | an LMP of today gives week 0, 280 days, first trimester |
| DueDate.WeeksFromDaysSinceLmp | src/components/dashboard/due-date-card.tsx:72-73 | k days after the LMP: 280 - k days left and week ceil(k/7) |
| DueDate.PickerDisabled | src/components/dashboard/due-date-card.tsx:117-137 | a date can be picked exactly when it lies between nine months ago and today |
| DueDate.PickedLmpGivesWeeksFromZero | src/components/dashboard/due-date-card.tsx:117-137 | a pickable LMP within 280 days gives a week from 0 to 40 |
| DueDate.DueDateCard.constructor | src/components/dashboard/due-date-card.tsx:33-35 | closed dialog, no date |
| DueDate.DueDateCard.SelectLmp | src/components/dashboard/due-date-card.tsx:133 | the picked date is remembered |
| DueDate.DueDateCard.HandleSave | src/components/dashboard/due-date-card.tsx:40-50 | with a date, the due date LMP + 40 weeks goes to the page and the dialog closes; without one nothing happens |
| DashboardPage.CurrentWeek | src/app/dashboard/page.tsx:68 | 1 without a due date, else the weeks pregnant at `now` |
| DashboardPage.CurrentTrimester | src/app/dashboard/page.tsx:69 | the trimester of the current week |
| DashboardPage.NoDueDateIsFirstWeek | src/app/dashboard/page.tsx:68-69 | without a due date: week 1, trimester 1 |
| DashboardPage.TruncDivStep | src/app/dashboard/page.tsx:68 | a rounded-toward-zero quotient moves by at most one when its argument moves by less than the divisor |
| DashboardPage.PageWeekAtMostOneAhead | src/app/dashboard/page.tsx:68 | the page's week is the card's week or one more |
| DashboardPage.StoredStartIsPickedLmp | src/app/dashboard/page.tsx:49 | the stored pregnancy start is the LMP the user picked |
| DashboardPage.DashboardPageState.constructor | src/app/dashboard/page.tsx:23-24 | loading, no due date |
| DashboardPage.DashboardPageState.FetchUserData | src/app/dashboard/page.tsx:26-42 | the stored due date is shown and loading ends |
| DashboardPage.DashboardPageState.HandleSetDueDate | src/app/dashboard/page.tsx:44-56 | a successful write stores the due date and the start 40 weeks before, then shows the date; otherwise nothing changes |
| DailyUpdate.DailyIndex | src/components/dashboard/daily-update-card.tsx:27-28 | an index into the table: day d is row d - 1, day 0 or earlier is row 0 |
| DailyUpdate.DailyData | src/components/dashboard/daily-update-card.tsx:27-28 | the row of that index |
| DailyUpdate.DailyDataRepeats | src/components/dashboard/daily-update-card.tsx:27-28 | past the table's end the rows repeat |
| DailyUpdate.FullTermReadsInOrder | src/data/daily-development-data.ts:10-50 | days 1 to 280 read the table's rows in order |
| DailyUpdate.Milestone | src/components/dashboard/daily-update-card.tsx:32-36 | a banner exactly in weeks 12, 20, 24, 28 and 36 |
| DailyUpdate.MilestonesWithinPregnancy | src/data/daily-development-data.ts:2-8 | every milestone week lies within 40 weeks |
| QuestionOfTheDay.QuestionId | src/data/question-data.ts:8-261 | `q` and three digits of the number |
| QuestionOfTheDay.DaysInMonth | src/components/dashboard/question-of-the-day-card.tsx:24 | 28 to 31 days |
| QuestionOfTheDay.DaysBefore | src/components/dashboard/question-of-the-day-card.tsx:24 | the days before a month, a whole year before January of the next |
| QuestionOfTheDay.DaysBeforeAddsMonths | src/components/dashboard/question-of-the-day-card.tsx:24 | the days before a month are the ones before the previous month plus its length |
| QuestionOfTheDay.DayOfYear | src/components/dashboard/question-of-the-day-card.tsx:24 | from 1 to the year's length |
| QuestionOfTheDay.NextDayOfYear | src/components/dashboard/question-of-the-day-card.tsx:24 | the next day in a year has the next number |
| QuestionOfTheDay.QuestionOfTheDay | src/components/dashboard/question-of-the-day-card.tsx:24-25 | the question at the day of the year modulo the list's length |
| QuestionOfTheDay.ConsecutiveDaysDiffer | src/components/dashboard/question-of-the-day-card.tsx:24-25 | with more than one question, two consecutive days get different rows |
| QuestionOfTheDay.QuestionRecurs | src/components/dashboard/question-of-the-day-card.tsx:25 | a row recurs every list-length days |
| QuestionOfTheDay.DaysOfYearLandmarks | src/components/dashboard/question-of-the-day-card.tsx:24 | Jan 1 is day 1, Feb 19 day 50, Dec 31 the year's length |
| QuestionOfTheDay.QuestionIdsAcrossTheYear | src/data/question-data.ts:8-261 | Jan 1 asks q002, Feb 19 q001 and Dec 31 q016 in common years, q017 in leap years |
| SizeViz.Comparison | src/components/dashboard/size-viz-card.tsx:18-20 | the first row for the current week, or the last row when there is none |
| SizeViz.LateWeekShowsLast | src/components/dashboard/size-viz-card.tsx:18-20 | a week past the table shows its last row |
| WeeklyUpdate.UpdateData | src/components/dashboard/weekly-update-card.tsx:19 | the current week's row, else the first row; none only for an empty table |
| WeeklyUpdate.FirstRowOfWeekWins | src/components/dashboard/weekly-update-card.tsx:19 | of two rows for the same week, the first is shown |

## Left out

- The document store: reads, listeners and writes become map or record fields of the card. The outcome of a write is a boolean parameter. Network errors, retries and offline caching are not modelled.
- `serverTimestamp()`, and the `createdAt`, `sessionDate`, `generatedAt` and `date` timestamps, are not stored in the modelled documents.
- JSON serialization of the local-storage entry: the list itself is stored.
- The `setInterval` timers become `Tick` methods the environment calls. Their cleanup on unmount is not modelled.
- A second `startTimer` on the contraction card would leak a running interval. The model keeps one timer flag.
- `stopTimer` on the contraction card mutates the last contraction in place and copies the array. The model builds the new list; aliasing is not modelled.
- Stale closures and the interleaving of asynchronous handlers: each handler runs to completion before the next.
- Rendering, toasts, dialogs' animation, icons, and the `loading` spinners except the page's own flag.
- Time zones and daylight saving: a day is always 86,400,000 ms. `MidnightOf` is the UTC start of the day.
- The date picker's `nineMonthsAgo` uses calendar month arithmetic and is a parameter of `PickerDisabled`.
- Floating-point: weights, intervals and averages are exact reals. `Math.sqrt` is replaced by comparing the variance with 3600.
- `parseFloat` exponents, `Infinity`, and the rounding of `String(number)` to 17 significant digits.
- `String(number)`'s exponent form below 1e-6 and from 1e21 (`String(0.0000001)` is `1e-7`): `Canonical` always writes plain decimal digits.
- `Math.random`: the order of the mission catalogue is a permutation parameter of `GetRandomMissions`.
- DailyMissionsCard.FetchMissions: sets the streak from the profile even when the profile document is missing (the code leaves it at 0), and assumes the write of newly drawn missions succeeds.
- DailyMissionsCard.HandleMissionCheck: a failure of the first write of the day's missions is not modelled; only the streak commit can fail.
- The missions card's `todayId` comes from the UTC date and the card takes today's day number as a parameter.
- A missing stored weight unit: the `|| 'lbs'` fallbacks of the weight card's profile listener and entry listener have no counterpart, because every modelled document and entry carries a unit.
- The journal card's `todayId` is fixed when the card mounts, while `isYesterday` and `isToday` in its save read the live clock. The model uses one `today` for both. So it does not capture a card left open past midnight, which writes to the previous day's document but checks the streak against the new day.
- The order of listener results is taken as given: kick sessions as the order they were written, and weight entries as sorted by date (`SortedByDate`).
- The tables `weeklySizeComparisons`, `weeklyDevelopmentUpdates` and `pregnancyTasks` are not part of this model. The cards that read them take the table as a parameter.
- The generated weekly update (`weekly-update-flow.ts`) and the mission generator flow are not part of this model.
- The texts of the daily development table and of the questions are not modelled: only the table's length and the question ids are.
