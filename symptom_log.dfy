/**
 * The symptom log card: a note box and a newest-first list of notes kept in
 * the card's own state.
 */
module SymptomLog {
  import opened Text

  /** `id` is the ISO text of the instant it was added, `date` that instant in milliseconds. */
  datatype LogEntry = LogEntry(id: string, date: int, notes: string)

  class SymptomLogCard {
    var notes: string
    var logEntries: seq<LogEntry>

    constructor ()
      ensures notes == "" && logEntries == []
    {
      notes := "";
      logEntries := [];
    }

    method SetNotes(text: string)
      modifies this`notes
      ensures notes == text
    {
      notes := text;
    }

    /**
     * `handleAddLog`: a blank note is refused and nothing changes; otherwise the
     * trimmed note is put in front of the list and the box is emptied. `isoNow`
     * is `new Date().toISOString()` for the instant `now`.
     */
    method HandleAddLog(now: int, isoNow: string) returns (added: bool)
      modifies this`notes, this`logEntries
      ensures added <==> !AllWhitespace(old(notes))
      ensures !added ==> notes == old(notes) && logEntries == old(logEntries)
      ensures added ==> && logEntries == [LogEntry(isoNow, now, Trim(old(notes)))] + old(logEntries)
                        && |logEntries| == |old(logEntries)| + 1
                        && logEntries[1..] == old(logEntries)
                        && notes == ""
      ensures added ==> Trimmed(logEntries[0].notes)
    {
      var original := notes;
      var trimmed := Trim(original);
      TrimEmptyIffBlank(original);
      if trimmed == "" {
        return false;
      }
      var entries := [LogEntry(isoNow, now, trimmed)] + logEntries;
      assert entries[1..] == logEntries;
      logEntries := entries;
      notes := "";
      added := true;
    }
  }

  /** A non-empty text that trimming leaves alone, with no whitespace at either end. */
  predicate Trimmed(t: string) {
    t != "" && Trim(t) == t && !IsJsWhitespace(t[0]) && !IsJsWhitespace(t[|t| - 1])
  }
}
