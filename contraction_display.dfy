/**
 * The contraction timer's `MM:SS` display of a number of seconds, and a reader
 * that takes such a text back to whole seconds.
 */
module ContractionDisplay {
  import opened Wrappers
  import opened Text
  import opened Numbers

  /**
   * `formatDuration(seconds)`: `Math.floor(seconds / 60)` and
   * `Math.floor(seconds % 60)`, each padded to two characters.
   */
  function FormatDuration(seconds: real): string {
    Clock((seconds / 60.0).Floor, JsRemReal(seconds, 60.0).Floor)
  }

  /** The two fields, each padded to two characters, around a colon. */
  function Clock(m: int, s: int): string {
    PadStart2(IntToString(m)) + ":" + PadStart2(IntToString(s))
  }

  /** Reads an `MM:SS` text back as a number of whole seconds. */
  function ClockSeconds(t: string): Option<int> {
    match SplitAt(t, ':')
    case None => None
    case Some(parts) => MinutesAndSeconds(parts.0, parts.1)
  }

  /** At least one digit of minutes and exactly two of seconds, below 60. */
  function MinutesAndSeconds(mm: string, ss: string): Option<int> {
    if |mm| >= 1 && AllDigits(mm) && |ss| == 2 && AllDigits(ss) && DigitsValue(ss) < 60
    then Some(60 * DigitsValue(mm) + DigitsValue(ss))
    else None
  }

  lemma FloorShift(k: int, r: real)
    ensures (k as real + r).Floor == k + r.Floor
  {
  }

  /**
   * For a non-negative number of seconds the text reads back as its whole
   * seconds, with a seconds field below 60; below 100 minutes it is exactly
   * five characters.
   */
  lemma FormatDurationReadsBack(seconds: real)
    requires seconds >= 0.0
    ensures ClockSeconds(FormatDuration(seconds)) == Some(seconds.Floor)
    ensures seconds < 6000.0 ==> |FormatDuration(seconds)| == 5
  {
    var m := (seconds / 60.0).Floor;
    var s := JsRemReal(seconds, 60.0).Floor;
    ClockFields(seconds);
    ClockOfFields(FormatDuration(seconds), m, s, seconds.Floor);
  }

  lemma ClockOfFields(t: string, m: nat, s: nat, whole: int)
    requires t == Clock(m, s) && s < 60 && whole == 60 * m + s
    ensures ClockSeconds(t) == Some(whole)
    ensures m < 100 ==> |t| == 5
  {
    ClockText(m, s);
  }

  /** The minutes and seconds fields of a non-negative duration. */
  lemma ClockFields(seconds: real)
    requires seconds >= 0.0
    ensures (seconds / 60.0).Floor >= 0
    ensures 0 <= JsRemReal(seconds, 60.0).Floor < 60
    ensures seconds.Floor == 60 * (seconds / 60.0).Floor + JsRemReal(seconds, 60.0).Floor
    ensures seconds < 6000.0 ==> (seconds / 60.0).Floor < 100
  {
    var m := (seconds / 60.0).Floor;
    var rem := JsRemReal(seconds, 60.0);
    JsRemRealSixty(seconds);
    FloorShift(60 * m, rem);
  }

  lemma ClockText(m: nat, s: nat)
    requires s < 60
    ensures ClockSeconds(Clock(m, s)) == Some(60 * m + s)
    ensures m < 100 ==> |Clock(m, s)| == 5
  {
    PaddedField(m);
    PaddedField(s);
    ClockOfJoin(PadStart2(IntToString(m)), PadStart2(IntToString(s)));
  }

  /** A field of the display: at least two digits that read back as the number. */
  lemma PaddedField(n: nat)
    ensures var f := PadStart2(IntToString(n));
            |f| >= 2 && AllDigits(f) && DigitsValue(f) == n && (n < 100 ==> |f| == 2)
  {
    PaddedNatValue(n);
  }

  lemma ClockOfJoin(mm: string, ss: string)
    requires |mm| >= 1 && AllDigits(mm) && |ss| == 2 && AllDigits(ss) && DigitsValue(ss) < 60
    ensures ClockSeconds(mm + [':'] + ss) == Some(60 * DigitsValue(mm) + DigitsValue(ss))
  {
    NoColonInDigits(mm);
    SplitJoined(mm, ss);
    MinutesAndSecondsOf(mm, ss);
  }

  lemma MinutesAndSecondsOf(mm: string, ss: string)
    requires |mm| >= 1 && AllDigits(mm) && |ss| == 2 && AllDigits(ss) && DigitsValue(ss) < 60
    ensures MinutesAndSeconds(mm, ss) == Some(60 * DigitsValue(mm) + DigitsValue(ss))
  {
  }

  lemma SplitJoined(mm: string, ss: string)
    requires ':' !in mm
    ensures ClockSeconds(mm + [':'] + ss) == MinutesAndSeconds(mm, ss)
  {
    SplitAtJoin(mm, ':', ss);
  }

  lemma NoColonInDigits(t: string)
    requires AllDigits(t)
    ensures ':' !in t
  {
  }
}
