/**
 * The kick counter card: a session is started, each tap counts a kick while
 * it is active, a one-second timer refreshes the elapsed time from the start
 * instant, and stopping either cancels (no kicks) or writes one session
 * document. Instants are epoch milliseconds.
 */
module KickCounter {
  import opened Wrappers
  import opened Text
  import opened Numbers

  /** The document written for a session; `sessionDate` is a server timestamp and is not modelled. */
  datatype KickSession = KickSession(
    userId: string,
    startTime: int,
    endTime: int,
    kickCount: int,
    sessionDuration: int)

  /** `Math.floor((now - start) / 1000)`: whole seconds since the start. */
  function ElapsedSeconds(start: int, now: int): (e: int)
    ensures 1000 * e <= now - start < 1000 * (e + 1)
    ensures start <= now ==> e >= 0
  {
    (now - start) / 1000
  }

  /** `${Math.floor(seconds / 60)}m ${seconds % 60}s`. */
  function FormatDuration(seconds: int): string {
    IntToString(seconds / 60) + "m " + IntToString(JsRem(seconds, 60)) + "s"
  }

  /** Reads a `<minutes>m <seconds>s` text with seconds below 60 back as a number of seconds. */
  function ReadDuration(t: string): Option<int> {
    match SplitAt(t, 'm')
    case None => None
    case Some(parts) =>
      match (ParseInt(parts.0), ReadSeconds(parts.1))
      case (Some(m), Some(sec)) => Some(60 * m + sec)
      case _ => None
  }

  /** Reads the ` <seconds>s` part, seconds below 60. */
  function ReadSeconds(rest: string): Option<nat> {
    if |rest| >= 3 && rest[0] == ' ' && rest[|rest| - 1] == 's' && AllDigits(rest[1..|rest| - 1])
       && DigitsValue(rest[1..|rest| - 1]) < 60
    then Some(DigitsValue(rest[1..|rest| - 1]))
    else None
  }

  /** A non-negative duration is shown as minutes and a seconds part below 60 that add back up to it. */
  lemma FormatDurationReadsBack(seconds: int)
    requires seconds >= 0
    ensures ReadDuration(FormatDuration(seconds)) == Some(seconds)
  {
    var q, sec := seconds / 60, seconds % 60;
    assert JsRem(seconds, 60) == sec;
    assert FormatDuration(seconds) == IntToString(q) + "m " + IntToString(sec) + "s";
    ReadDurationOfParts(q, sec);
  }

  lemma ReadDurationOfParts(q: nat, sec: nat)
    requires sec < 60
    ensures ReadDuration(IntToString(q) + "m " + IntToString(sec) + "s") == Some(60 * q + sec)
  {
    var m := NatToString(q);
    var rest := " " + NatToString(sec) + "s";
    var t := IntToString(q) + "m " + IntToString(sec) + "s";
    DurationText(q, sec);
    NoLetterInDigits(m);
    SplitAtJoin(m, 'm', rest);
    ReadSecondsOf(sec);
    ParseIntToString(q);
    ReadDurationOfSplit(t, m, rest, q, sec);
  }

  lemma DurationText(q: nat, sec: nat)
    ensures IntToString(q) + "m " + IntToString(sec) + "s" == NatToString(q) + ['m'] + (" " + NatToString(sec) + "s")
  {
  }

  lemma NoLetterInDigits(m: string)
    requires AllDigits(m)
    ensures 'm' !in m
  {
  }

  lemma ReadDurationOfSplit(t: string, m: string, rest: string, q: int, sec: nat)
    requires SplitAt(t, 'm') == Some((m, rest))
    requires ParseInt(m) == Some(q) && ReadSeconds(rest) == Some(sec)
    ensures ReadDuration(t) == Some(60 * q + sec)
  {
  }

  lemma ReadSecondsOf(sec: nat)
    requires sec < 60
    ensures ReadSeconds(" " + NatToString(sec) + "s") == Some(sec)
  {
    var rest := " " + NatToString(sec) + "s";
    assert rest[1..|rest| - 1] == NatToString(sec);
    DigitsValueOfNatToString(sec);
  }

  /** The card's list: the latest ten documents, newest first, when documents are stored in the order they were written. */
  function RecentSessions(saved: seq<KickSession>): (r: seq<KickSession>)
    ensures |r| == if |saved| < 10 then |saved| else 10
    ensures forall i :: 0 <= i < |r| ==> r[i] == saved[|saved| - 1 - i]
  {
    if saved == [] then []
    else
      var newer := [saved[|saved| - 1]];
      if |saved| == 1 then newer
      else
        var older := RecentSessions(saved[..|saved| - 1]);
        newer + (if |older| == 10 then older[..9] else older)
  }

  /** What stopping a session came to. */
  datatype StopOutcome =
    | Canceled
      /** `user!.uid` throws before the write when signed out. */
    | SignedOutError
    | Saved(session: KickSession)
    | SaveFailed

  class KickCounterCard {
    const user: Option<string>
    var isSessionActive: bool
    var kickCount: int
    var elapsedTime: int
    /** Whether `timerRef` holds a running interval. */
    var timerScheduled: bool
    /** `startTimeRef.current`. */
    var startTime: Option<int>
    /** The user's `kickTracking` documents, in the order they were written. */
    var saved: seq<KickSession>

    ghost predicate Valid()
      reads this
    {
      && timerScheduled == isSessionActive
      && (isSessionActive ==> startTime.Some?)
      && kickCount >= 0
    }

    constructor (user: Option<string>, saved: seq<KickSession>)
      ensures Valid()
      ensures this.user == user && this.saved == saved
      ensures !isSessionActive && kickCount == 0 && elapsedTime == 0 && startTime.None?
    {
      this.user := user;
      isSessionActive := false;
      kickCount := 0;
      elapsedTime := 0;
      timerScheduled := false;
      startTime := None;
      this.saved := saved;
    }

    /** `handleStartSession`: zero the counters, remember the start and schedule the timer. */
    method HandleStartSession(now: int)
      requires Valid()
      modifies this
      ensures Valid()
      ensures isSessionActive && timerScheduled && kickCount == 0 && elapsedTime == 0
      ensures startTime == Some(now) && saved == old(saved)
    {
      isSessionActive := true;
      kickCount := 0;
      elapsedTime := 0;
      startTime := Some(now);
      timerScheduled := true;
    }

    /** A firing of the interval: the elapsed time is recomputed from the start instant. */
    method TimerTick(now: int)
      requires Valid()
      modifies this`elapsedTime
      ensures Valid()
      ensures timerScheduled ==> elapsedTime == ElapsedSeconds(startTime.value, now)
      ensures !timerScheduled ==> elapsedTime == old(elapsedTime)
    {
      if timerScheduled && startTime.Some? {
        elapsedTime := ElapsedSeconds(startTime.value, now);
      }
    }

    /** `stopTimer`: clears the interval if one is scheduled; with none it does nothing, so it can be repeated. */
    method StopTimer()
      modifies this`timerScheduled
      ensures !timerScheduled
    {
      if timerScheduled {
        timerScheduled := false;
      }
    }

    /** `handleKick`: counts only while a session is active. */
    method HandleKick()
      requires Valid()
      modifies this`kickCount
      ensures Valid()
      ensures kickCount == if isSessionActive then old(kickCount) + 1 else old(kickCount)
    {
      if isSessionActive {
        kickCount := kickCount + 1;
      }
    }

    /**
     * `handleStopSession`. The timer is stopped and the session made inactive
     * first. With no kicks (or no start) it is canceled and the counters are left
     * as they are. Signed out, the user lookup throws before the write, leaving
     * the counters too. Otherwise the session document is written (or the write
     * fails) and then the counters and the start are reset either way.
     */
    method HandleStopSession(now: int, writeSucceeds: bool) returns (outcome: StopOutcome)
      requires Valid()
      modifies this
      ensures Valid()
      ensures !isSessionActive && !timerScheduled
      ensures old(kickCount) == 0 || old(startTime).None? ==>
                outcome == Canceled && kickCount == old(kickCount) && elapsedTime == old(elapsedTime)
                && startTime == old(startTime) && saved == old(saved)
      ensures old(kickCount) != 0 && old(startTime).Some? && user.None? ==>
                outcome == SignedOutError && kickCount == old(kickCount) && elapsedTime == old(elapsedTime)
                && startTime == old(startTime) && saved == old(saved)
      ensures old(kickCount) != 0 && old(startTime).Some? && user.Some? ==>
                && kickCount == 0 && elapsedTime == 0 && startTime.None?
                && var session := KickSession(user.value, old(startTime).value, now, old(kickCount), old(elapsedTime));
                   (writeSucceeds ==> outcome == Saved(session) && saved == old(saved) + [session])
                   && (!writeSucceeds ==> outcome == SaveFailed && saved == old(saved))
    {
      StopTimer();
      isSessionActive := false;
      if kickCount == 0 || startTime.None? {
        return Canceled;
      }
      if user.None? {
        return SignedOutError;
      }
      var session := KickSession(user.value, startTime.value, now, kickCount, elapsedTime);
      if writeSucceeds {
        saved := saved + [session];
        outcome := Saved(session);
      } else {
        outcome := SaveFailed;
      }
      kickCount := 0;
      elapsedTime := 0;
      startTime := None;
    }
  }
}
