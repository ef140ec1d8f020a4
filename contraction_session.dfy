/**
 * The contraction timer's session as a value: the state the timer card keeps
 * (timing flag, the ordered contractions of the unsaved session, the live
 * per-second counter and the intensity slider), the transitions its handlers
 * make, and the statistics it shows. The card itself,
 * with its local-storage mirror and the save to the store, is the class in
 * module ContractionTimer, whose methods are specified by these functions.
 */
module ContractionSession {
  import opened Wrappers
  import opened Text
  import opened Numbers

  /**
   * One contraction. `startTime` and `endTime` are epoch milliseconds
   * (`Date.now()`), `duration` is whole seconds from the live counter and
   * `interval` is seconds, possibly fractional, since the previous start.
   */
  datatype Contraction = Contraction(
    startTime: int,
    endTime: Option<int>,
    duration: Option<int>,
    interval: Option<real>,
    intensity: int)

  /** `isTiming`, `contractions`, `currentDuration` and `intensity` of the card. */
  datatype Session = Session(
    isTiming: bool,
    contractions: seq<Contraction>,
    currentDuration: int,
    intensity: int)

  /** The state of a freshly mounted card before anything is loaded. */
  const InitialSession := Session(false, [], 0, 5)

  function Last<T>(s: seq<T>): T
    requires s != []
  {
    s[|s| - 1]
  }

  /** `(now - previous.startTime) / 1000`: seconds between two starts. */
  function IntervalSeconds(previousStart: int, now: int): (secs: real)
    ensures secs * 1000.0 == (now - previousStart) as real
    ensures previousStart <= now ==> secs >= 0.0
  {
    (now - previousStart) as real / 1000.0
  }

  /** The contraction `startTimer` appends. */
  function NewContraction(cs: seq<Contraction>, now: int, intensity: int): (c: Contraction)
    ensures c.startTime == now && c.intensity == intensity
    ensures c.endTime.None? && c.duration.None?
    ensures c.interval.None? <==> cs == []
    ensures cs != [] ==> c.interval.value * 1000.0 == (now - Last(cs).startTime) as real
  {
    Contraction(now, None, None, if cs == [] then None else Some(IntervalSeconds(Last(cs).startTime, now)), intensity)
  }

  /** `startTimer`: append an in-progress contraction, start timing and reset the live counter. */
  function Start(s: Session, now: int): (r: Session)
    ensures r.isTiming && r.currentDuration == 0 && r.intensity == s.intensity
    ensures |r.contractions| == |s.contractions| + 1
    ensures r.contractions[..|s.contractions|] == s.contractions
    ensures Last(r.contractions).startTime == now
    ensures Last(r.contractions).endTime.None? && Last(r.contractions).duration.None?
    ensures Last(r.contractions).intensity == s.intensity
    ensures Last(r.contractions).interval ==
              if s.contractions == [] then None
              else Some(IntervalSeconds(Last(s.contractions).startTime, now))
  {
    Session(true, s.contractions + [NewContraction(s.contractions, now, s.intensity)], 0, s.intensity)
  }

  /** One firing of the one-second interval; the interval is scheduled exactly while timing. */
  function Tick(s: Session): (r: Session)
    ensures r.currentDuration == if s.isTiming then s.currentDuration + 1 else s.currentDuration
    ensures r.isTiming == s.isTiming && r.contractions == s.contractions && r.intensity == s.intensity
  {
    if s.isTiming then s.(currentDuration := s.currentDuration + 1) else s
  }

  /** The `setContractions` updater of `stopTimer`: the last contraction gets its end time and the counter as duration. */
  function Finalize(cs: seq<Contraction>, now: int, counter: int): (r: seq<Contraction>)
    ensures |r| == |cs|
    ensures cs != [] ==> r[..|cs| - 1] == cs[..|cs| - 1]
    ensures cs != [] ==> Last(r) == Last(cs).(endTime := Some(now), duration := Some(counter))
  {
    if cs == [] then [] else cs[..|cs| - 1] + [Last(cs).(endTime := Some(now), duration := Some(counter))]
  }

  /** `stopTimer`: stop timing and finalize the last contraction; the counter keeps its value. */
  function Stop(s: Session, now: int): (r: Session)
    ensures !r.isTiming && r.currentDuration == s.currentDuration && r.intensity == s.intensity
    ensures r.contractions == Finalize(s.contractions, now, s.currentDuration)
  {
    Session(false, Finalize(s.contractions, now, s.currentDuration), s.currentDuration, s.intensity)
  }

  /** `handleStartStop`: the one button toggles between stopping and starting. */
  function StartStop(s: Session, now: int): (r: Session)
    ensures r.isTiming == !s.isTiming
    ensures r.intensity == s.intensity
    ensures s.isTiming ==> r.contractions == Finalize(s.contractions, now, s.currentDuration)
    ensures !s.isTiming ==>
              && |r.contractions| == |s.contractions| + 1
              && r.contractions[..|s.contractions|] == s.contractions
              && r.currentDuration == 0
  {
    if s.isTiming then Stop(s, now) else Start(s, now)
  }

  /**
   * `handleClearSession`: the list is emptied first and `stopTimer` runs after
   * it when timing, so its updater sees the empty list.
   */
  function Clear(s: Session, now: int): (r: Session)
    ensures r.contractions == [] && !r.isTiming
    ensures r.currentDuration == s.currentDuration && r.intensity == s.intensity
  {
    var emptied := s.(contractions := []);
    if s.isTiming then Stop(emptied, now) else emptied
  }

  /** The intensity slider (range 1 to 10). */
  function SetIntensity(s: Session, value: int): (r: Session)
    requires 1 <= value <= 10
    ensures r.intensity == value && r.isTiming == s.isTiming
    ensures r.contractions == s.contractions && r.currentDuration == s.currentDuration
  {
    s.(intensity := value)
  }

  /** The big display: the live counter while timing, else the last duration (`?? 0`). */
  function DisplayedSeconds(s: Session): (d: int)
    ensures s.isTiming ==> d == s.currentDuration
    ensures !s.isTiming && s.contractions != [] && Last(s.contractions).duration.Some? ==>
              d == Last(s.contractions).duration.value
    ensures !s.isTiming && (s.contractions == [] || Last(s.contractions).duration.None?) ==> d == 0
  {
    if s.isTiming then s.currentDuration
    else if s.contractions == [] then 0
    else Last(s.contractions).duration.GetOr(0)
  }

  // ---------------------------------------------------------------------------
  // Session invariant

  /** Each interval is the distance from the previous start; the first has none. */
  ghost predicate IntervalsFromStarts(cs: seq<Contraction>) {
    && (cs != [] ==> cs[0].interval.None?)
    && forall k :: 0 < k < |cs| ==> cs[k].interval == Some(IntervalSeconds(cs[k - 1].startTime, cs[k].startTime))
  }

  /** Starts never go backwards. */
  ghost predicate Chronological(cs: seq<Contraction>) {
    forall k :: 0 < k < |cs| ==> cs[k - 1].startTime <= cs[k].startTime
  }

  /** Only the last contraction may be in progress, and only while timing; end and duration are set together. */
  ghost predicate FinishedExceptCurrent(s: Session) {
    var cs := s.contractions;
    && (s.isTiming ==> cs != [] && Last(cs).endTime.None?)
    && (forall i :: 0 <= i < |cs| ==> (cs[i].endTime.Some? <==> cs[i].duration.Some?))
    && (forall i :: 0 <= i < |cs| && (i < |cs| - 1 || !s.isTiming) ==> cs[i].endTime.Some?)
    && (forall i :: 0 <= i < |cs| && cs[i].duration.Some? ==> cs[i].duration.value >= 0)
    && s.currentDuration >= 0
  }

  ghost predicate SessionInvariant(s: Session) {
    IntervalsFromStarts(s.contractions) && Chronological(s.contractions) && FinishedExceptCurrent(s)
  }

  /** The wall clock does not run backwards past the last start. */
  ghost predicate ClockAfterLastStart(s: Session, now: int) {
    s.contractions != [] ==> Last(s.contractions).startTime <= now
  }

  lemma InitialSessionInvariant()
    ensures SessionInvariant(InitialSession)
  {
  }

  lemma {:induction false} StartKeepsInvariant(s: Session, now: int)
    requires SessionInvariant(s) && !s.isTiming && ClockAfterLastStart(s, now)
    ensures SessionInvariant(Start(s, now))
  {
    var cs := s.contractions;
    var r := Start(s, now).contractions;
    assert r == cs + [NewContraction(cs, now, s.intensity)];
    forall k | 0 < k < |r|
      ensures r[k].interval == Some(IntervalSeconds(r[k - 1].startTime, r[k].startTime))
      ensures r[k - 1].startTime <= r[k].startTime
    {
      if k < |cs| {
        assert r[k] == cs[k] && r[k - 1] == cs[k - 1];
      } else {
        assert r[k - 1] == Last(cs);
      }
    }
    assert IntervalsFromStarts(r) && Chronological(r);
    forall i | 0 <= i < |cs| ensures r[i] == cs[i] && r[i].endTime.Some? {
    }
    assert FinishedExceptCurrent(Start(s, now));
  }

  lemma {:induction false} StopKeepsInvariant(s: Session, now: int)
    requires SessionInvariant(s) && s.isTiming
    ensures SessionInvariant(Stop(s, now))
  {
    var cs := s.contractions;
    var r := Stop(s, now).contractions;
    assert |r| == |cs|;
    forall k | 0 <= k < |r|
      ensures r[k].startTime == cs[k].startTime && r[k].interval == cs[k].interval
      ensures k < |r| - 1 ==> r[k] == cs[k]
    {
      if k < |r| - 1 {
        assert r[k] == r[..|cs| - 1][k] == cs[..|cs| - 1][k] == cs[k];
      }
    }
  }

  /** The invariant holds after every handler: start/stop, a tick, clearing, the slider. */
  lemma StartStopKeepsInvariant(s: Session, now: int)
    requires SessionInvariant(s) && ClockAfterLastStart(s, now)
    ensures SessionInvariant(StartStop(s, now))
  {
    if s.isTiming {
      StopKeepsInvariant(s, now);
    } else {
      StartKeepsInvariant(s, now);
    }
  }

  lemma TickKeepsInvariant(s: Session)
    requires SessionInvariant(s)
    ensures SessionInvariant(Tick(s))
  {
  }

  lemma ClearKeepsInvariant(s: Session, now: int)
    requires SessionInvariant(s)
    ensures SessionInvariant(Clear(s, now))
  {
  }

  // ---------------------------------------------------------------------------
  // Traces of button presses and ticks

  datatype Event = PressStartStop(now: int) | TimerTick

  function Apply(s: Session, e: Event): Session {
    match e
    case PressStartStop(now) => StartStop(s, now)
    case TimerTick => Tick(s)
  }

  /** The session after a sequence of events, applied oldest first. */
  function Run(s: Session, events: seq<Event>): Session
    decreases |events|
  {
    if events == [] then s else Apply(Run(s, events[..|events| - 1]), Last(events))
  }

  function Presses(events: seq<Event>): nat
    decreases |events|
  {
    if events == [] then 0
    else Presses(events[..|events| - 1]) + (if Last(events).PressStartStop? then 1 else 0)
  }

  /** How many contractions have been stopped. */
  function FinishedCount(cs: seq<Contraction>): nat
    decreases |cs|
  {
    if cs == [] then 0 else FinishedCount(cs[..|cs| - 1]) + (if Last(cs).endTime.Some? then 1 else 0)
  }

  lemma {:induction false} FinishedCountAppend(cs: seq<Contraction>, c: Contraction)
    ensures FinishedCount(cs + [c]) == FinishedCount(cs) + (if c.endTime.Some? then 1 else 0)
  {
    assert (cs + [c])[..|cs|] == cs;
  }

  /**
   * From a fresh card, after any presses and ticks: every other press starts a
   * contraction and every other press stops one, so the number of stopped
   * contractions equals the number of stop presses, the list holds one
   * contraction per start press, and the card is timing exactly after an odd
   * number of presses.
   */
  lemma {:induction false} RunCountsPresses(events: seq<Event>)
    ensures var r := Run(InitialSession, events);
            && |r.contractions| == (Presses(events) + 1) / 2
            && FinishedCount(r.contractions) == Presses(events) / 2
            && r.isTiming == (Presses(events) % 2 == 1)
            && (r.isTiming ==> Last(r.contractions).endTime.None?)
    decreases |events|
  {
    if events != [] {
      var prefix := events[..|events| - 1];
      RunCountsPresses(prefix);
      var s := Run(InitialSession, prefix);
      match Last(events)
      case TimerTick =>
        assert Presses(events) == Presses(prefix);
      case PressStartStop(now) =>
        assert Presses(events) == Presses(prefix) + 1;
        PressKeepsCounts(s, now, Presses(prefix));
    }
  }

  /** One press after `p` presses: the counts of `RunCountsPresses` move on to `p + 1`. */
  lemma PressKeepsCounts(s: Session, now: int, p: nat)
    requires |s.contractions| == (p + 1) / 2 && FinishedCount(s.contractions) == p / 2
    requires s.isTiming == (p % 2 == 1) && (s.isTiming ==> Last(s.contractions).endTime.None?)
    ensures var r := StartStop(s, now);
            && |r.contractions| == (p + 2) / 2
            && FinishedCount(r.contractions) == (p + 1) / 2
            && r.isTiming == ((p + 1) % 2 == 1)
            && (r.isTiming ==> Last(r.contractions).endTime.None?)
  {
    var cs := s.contractions;
    if s.isTiming {
      assert cs == cs[..|cs| - 1] + [Last(cs)];
      FinishedCountAppend(cs[..|cs| - 1], Last(cs));
      FinishedCountAppend(cs[..|cs| - 1], Last(cs).(endTime := Some(now), duration := Some(s.currentDuration)));
    } else {
      FinishedCountAppend(cs, NewContraction(cs, now, s.intensity));
    }
  }

  /** n ticks of the timer. */
  function Ticks(s: Session, n: nat): Session {
    if n == 0 then s else Tick(Ticks(s, n - 1))
  }

  lemma {:induction false} TicksWhileTiming(s: Session, n: nat)
    requires s.isTiming
    ensures Ticks(s, n) == s.(currentDuration := s.currentDuration + n)
  {
    if n > 0 {
      TicksWhileTiming(s, n - 1);
    }
  }

  /**
   * A contraction started at `t0`, ticked `n` times and stopped at `t1` is
   * recorded with end `t1` and duration `n`: the counter, not the clock, gives
   * the duration. The display then shows that duration.
   */
  lemma StartTicksStop(s: Session, t0: int, n: nat, t1: int)
    requires !s.isTiming
    ensures var r := Stop(Ticks(Start(s, t0), n), t1);
            && |r.contractions| == |s.contractions| + 1
            && r.contractions[..|s.contractions|] == s.contractions
            && Last(r.contractions).startTime == t0
            && Last(r.contractions).endTime == Some(t1)
            && Last(r.contractions).duration == Some(n)
            && DisplayedSeconds(r) == n
  {
    var started := Start(s, t0);
    TicksWhileTiming(started, n);
    var r := Stop(Ticks(started, n), t1);
    assert r.contractions[..|s.contractions|] == started.contractions[..|s.contractions|];
  }

  // ---------------------------------------------------------------------------
  // Statistics (`calculateStats`)

  /** The non-null durations, in order (`filter(c => c.duration !== null)`). */
  function Durations(cs: seq<Contraction>): (ds: seq<int>)
    ensures |ds| <= |cs|
    ensures (exists i :: 0 <= i < |cs| && cs[i].duration.Some?) <==> ds != []
  {
    if cs == [] then []
    else (if cs[0].duration.Some? then [cs[0].duration.value] else []) + Durations(cs[1..])
  }

  /** `Durations` is a filter: it distributes over concatenation, so the kept durations stay in order. */
  lemma {:induction false} DurationsAppend(a: seq<Contraction>, b: seq<Contraction>)
    ensures Durations(a + b) == Durations(a) + Durations(b)
  {
    if a == [] {
      assert a + b == b;
    } else {
      assert (a + b)[0] == a[0] && (a + b)[1..] == a[1..] + b;
      DurationsAppend(a[1..], b);
    }
  }

  /** One contraction contributes its duration when it has one (a zero included) and nothing otherwise. */
  lemma DurationsOfOne(c: Contraction)
    ensures Durations([c]) == if c.duration.Some? then [c.duration.value] else []
  {
    assert [c][1..] == [];
  }

  /** When every contraction has a duration, they are all kept, in order. */
  lemma {:induction false} DurationsAllPresent(cs: seq<Contraction>)
    requires forall i :: 0 <= i < |cs| ==> cs[i].duration.Some?
    ensures |Durations(cs)| == |cs|
    ensures forall i :: 0 <= i < |cs| ==> Durations(cs)[i] == cs[i].duration.value
  {
    if cs != [] {
      DurationsAllPresent(cs[1..]);
    }
  }

  /** Between timings, every contraction of a reachable session has its duration in the average. */
  lemma StoppedSessionDurations(s: Session)
    requires SessionInvariant(s) && !s.isTiming
    ensures |Durations(s.contractions)| == |s.contractions|
    ensures forall i :: 0 <= i < |s.contractions| ==> Durations(s.contractions)[i] == s.contractions[i].duration.value
  {
    DurationsAllPresent(s.contractions);
  }

  /** The non-null intervals, in order. */
  function Intervals(cs: seq<Contraction>): (xs: seq<real>)
    ensures |xs| <= |cs|
    ensures (exists i :: 0 <= i < |cs| && cs[i].interval.Some?) <==> xs != []
  {
    if cs == [] then []
    else (if cs[0].interval.Some? then [cs[0].interval.value] else []) + Intervals(cs[1..])
  }

  function Sum(xs: seq<real>): real {
    if xs == [] then 0.0 else xs[0] + Sum(xs[1..])
  }

  function SumInt(xs: seq<int>): int {
    if xs == [] then 0 else xs[0] + SumInt(xs[1..])
  }

  function Mean(xs: seq<real>): (m: real)
    requires xs != []
    ensures m * |xs| as real == Sum(xs)
  {
    DivMulCancel(Sum(xs), |xs| as real);
    Sum(xs) / |xs| as real
  }

  function Square(x: real): real {
    x * x
  }

  function SquaredDeviations(xs: seq<real>, m: real): (ys: seq<real>)
    ensures |ys| == |xs|
    ensures forall i :: 0 <= i < |xs| ==> ys[i] == Square(xs[i] - m)
  {
    if xs == [] then [] else [Square(xs[0] - m)] + SquaredDeviations(xs[1..], m)
  }

  /** Population variance; `stdDev < 60` is `Variance < 3600`. */
  function Variance(xs: seq<real>): (v: real)
    requires xs != []
    ensures v >= 0.0
    ensures v * |xs| as real == Sum(SquaredDeviations(xs, Mean(xs)))
  {
    var sq := SquaredDeviations(xs, Mean(xs));
    assert forall j :: 0 <= j < |sq| ==> sq[j] >= 0.0 by {
      forall j | 0 <= j < |sq| ensures sq[j] >= 0.0 {
        SquareNonNegative(xs[j] - Mean(xs));
      }
    }
    SumNonNegative(sq);
    DivMulCancel(Sum(sq), |xs| as real);
    Sum(sq) / |xs| as real
  }

  /** `avgDuration` is `None` where the source divides by zero and shows `NaN`. */
  datatype Stats = Stats(avgDuration: Option<real>, avgFrequency: real, isRegular: bool)

  /**
   * `calculateStats`. The variance step reduces the interval list without an
   * initial value, which throws on an empty list, hence the precondition.
   */
  function CalculateStats(cs: seq<Contraction>): (r: Stats)
    requires |cs| < 2 || Intervals(cs[1..]) != []
    ensures |cs| < 2 ==> r == Stats(Some(0.0), 0.0, false)
    ensures |cs| >= 2 ==> (r.avgDuration.None? <==> Durations(cs) == [])
    ensures |cs| >= 2 && r.avgDuration.Some? ==>
              r.avgDuration.value * |Durations(cs)| as real == SumInt(Durations(cs)) as real
    ensures |cs| >= 2 ==> r.avgFrequency == Mean(Intervals(cs[1..]))
    ensures |cs| >= 2 ==> (r.isRegular <==> Variance(Intervals(cs[1..])) < 3600.0)
  {
    if |cs| < 2 then Stats(Some(0.0), 0.0, false)
    else
      var xs := Intervals(cs[1..]);
      Stats(AverageDuration(Durations(cs)), Mean(xs), Variance(xs) < 3600.0)
  }

  /** The mean of the kept durations, `None` for none (`0 / 0` is `NaN`). */
  function AverageDuration(ds: seq<int>): (a: Option<real>)
    ensures a.None? <==> ds == []
    ensures a.Some? ==> a.value * |ds| as real == SumInt(ds) as real
  {
    DivMulCancel(SumInt(ds) as real, |ds| as real);
    if ds == [] then None else Some(SumInt(ds) as real / |ds| as real)
  }

  lemma {:induction false} IntervalsAllPresent(cs: seq<Contraction>)
    requires forall i :: 0 <= i < |cs| ==> cs[i].interval.Some?
    ensures |Intervals(cs)| == |cs|
    ensures forall i :: 0 <= i < |cs| ==> Intervals(cs)[i] == cs[i].interval.value
  {
    if cs != [] {
      IntervalsAllPresent(cs[1..]);
    }
  }

  /**
   * In any session the handlers can produce, the statistics are defined once
   * there are two contractions: every later contraction has an interval, and the
   * first one has been stopped, so the average duration is a number. The
   * intervals are exactly the gaps between consecutive starts.
   */
  lemma StatsDefinedOnSessions(s: Session)
    requires SessionInvariant(s) && |s.contractions| >= 2
    ensures Intervals(s.contractions[1..]) != []
    ensures Durations(s.contractions) != []
    ensures CalculateStats(s.contractions).avgDuration.Some?
    ensures var xs := Intervals(s.contractions[1..]);
            |xs| == |s.contractions| - 1
            && forall k :: 0 <= k < |xs| ==>
                 xs[k] == IntervalSeconds(s.contractions[k].startTime, s.contractions[k + 1].startTime)
  {
    var cs := s.contractions;
    var tail := cs[1..];
    assert tail[0] == cs[1];
    assert cs[0].duration.Some?;
    forall i | 0 <= i < |tail| ensures tail[i].interval.Some? {
      assert tail[i] == cs[i + 1];
      assert cs[i + 1].interval == Some(IntervalSeconds(cs[i].startTime, cs[i + 1].startTime));
    }
    IntervalsAllPresent(tail);
    forall k | 0 <= k < |tail|
      ensures Intervals(tail)[k] == IntervalSeconds(cs[k].startTime, cs[k + 1].startTime)
    {
      assert tail[k] == cs[k + 1];
    }
  }

  lemma {:induction false} SumBelow(xs: seq<real>, bound: real)
    requires forall i :: 0 <= i < |xs| ==> xs[i] < bound
    ensures xs != [] ==> Sum(xs) < bound * |xs| as real
    ensures xs == [] ==> Sum(xs) == 0.0
  {
    if xs != [] {
      SumBelow(xs[1..], bound);
    }
  }

  lemma {:induction false} TermAtMostSum(xs: seq<real>, i: int)
    requires forall j :: 0 <= j < |xs| ==> xs[j] >= 0.0
    requires 0 <= i < |xs|
    ensures xs[i] <= Sum(xs) && Sum(xs) >= 0.0
  {
    SumNonNegative(xs[1..]);
    if i > 0 {
      TermAtMostSum(xs[1..], i - 1);
    }
  }

  lemma {:induction false} SumNonNegative(xs: seq<real>)
    requires forall j :: 0 <= j < |xs| ==> xs[j] >= 0.0
    ensures Sum(xs) >= 0.0
  {
    if xs != [] {
      SumNonNegative(xs[1..]);
    }
  }

  /** If every interval is within a minute of the mean, the pattern is regular. */
  lemma RegularWhenAllNearMean(xs: seq<real>)
    requires xs != []
    requires forall i :: 0 <= i < |xs| ==> -60.0 < xs[i] - Mean(xs) < 60.0
    ensures Variance(xs) < 3600.0
  {
    var m := Mean(xs);
    var sq := SquaredDeviations(xs, m);
    forall i | 0 <= i < |sq| ensures sq[i] < 3600.0 {
      assert sq[i] == Square(xs[i] - m);
      SquareBelow(xs[i] - m);
    }
    SumBelow(sq, 3600.0);
    QuotientBelow(Sum(sq), |xs| as real, 3600.0);
  }

  lemma SquareBelow(d: real)
    requires -60.0 < d < 60.0
    ensures Square(d) < 3600.0
  {
    if d >= 0.0 {
      assert d * d <= 60.0 * d < 3600.0;
    } else {
      assert d * d <= -60.0 * d < 3600.0;
    }
  }

  lemma SquareNonNegative(d: real)
    ensures Square(d) >= 0.0
  {
    if d < 0.0 {
      assert d * d == (-d) * (-d);
    }
  }

  lemma QuotientBelow(a: real, n: real, c: real)
    requires n > 0.0 && a < c * n
    ensures a / n < c
  {
  }

  /** One interval whose squared distance from the mean reaches 3600 times their count makes the pattern irregular. */
  lemma IrregularWhenOneFarFromMean(xs: seq<real>, i: int)
    requires 0 <= i < |xs|
    requires Square(xs[i] - Mean(xs)) >= 3600.0 * |xs| as real
    ensures Variance(xs) >= 3600.0
  {
    var sq := SquaredDeviations(xs, Mean(xs));
    forall j | 0 <= j < |sq| ensures sq[j] >= 0.0 {
      assert sq[j] == Square(xs[j] - Mean(xs));
    }
    TermAtMostSum(sq, i);
    QuotientAtLeast(Sum(sq), |xs| as real, 3600.0);
  }

  lemma DivMulCancel(a: real, n: real)
    ensures n != 0.0 ==> (a / n) * n == a && (a * n) / n == a
  {
  }

  lemma QuotientAtLeast(a: real, n: real, c: real)
    requires n > 0.0 && a >= c * n
    ensures a / n >= c
  {
  }

  lemma {:induction false} SumConstant(xs: seq<real>, c: real)
    requires forall i :: 0 <= i < |xs| ==> xs[i] == c
    ensures Sum(xs) == c * |xs| as real
  {
    if xs != [] {
      SumConstant(xs[1..], c);
    }
  }

  /** Perfectly even spacing: the average is that spacing and the pattern is regular. */
  lemma EvenSpacingIsRegular(xs: seq<real>, c: real)
    requires xs != []
    requires forall i :: 0 <= i < |xs| ==> xs[i] == c
    ensures Mean(xs) == c
    ensures Variance(xs) == 0.0
  {
    var n := |xs| as real;
    SumConstant(xs, c);
    DivMulCancel(c, n);
    assert Mean(xs) == c;
    var sq := SquaredDeviations(xs, Mean(xs));
    assert forall i :: 0 <= i < |sq| ==> sq[i] == Square(c - c) == 0.0;
    SumConstant(sq, 0.0);
    assert Sum(sq) == 0.0 * n == 0.0;
  }

  /** Intervals of 120, 125, 118 and 122 seconds: a regular pattern averaging 121.25 s. */
  lemma CloseIntervalsAreRegular()
    ensures Mean([120.0, 125.0, 118.0, 122.0]) == 121.25
    ensures Variance([120.0, 125.0, 118.0, 122.0]) < 3600.0
  {
    var xs := [120.0, 125.0, 118.0, 122.0];
    assert Sum(xs) == 485.0;
    RegularWhenAllNearMean(xs);
  }

  /** Intervals of 60, 300, 45 and 280 seconds: the 45 s gap alone makes the pattern irregular. */
  lemma ScatteredIntervalsAreIrregular()
    ensures Mean([60.0, 300.0, 45.0, 280.0]) == 171.25
    ensures Variance([60.0, 300.0, 45.0, 280.0]) >= 3600.0
  {
    var xs := [60.0, 300.0, 45.0, 280.0];
    assert Sum(xs) == 685.0;
    assert Square(xs[2] - Mean(xs)) == 15939.0625;
    IrregularWhenOneFarFromMean(xs, 2);
  }

  /** The average interval lies between the smallest and the largest interval. */
  lemma MeanWithinBounds(xs: seq<real>, lo: real, hi: real)
    requires xs != []
    requires forall i :: 0 <= i < |xs| ==> lo <= xs[i] <= hi
    ensures lo <= Mean(xs) <= hi
  {
    SumBetween(xs, lo, hi);
  }

  lemma {:induction false} SumBetween(xs: seq<real>, lo: real, hi: real)
    requires forall i :: 0 <= i < |xs| ==> lo <= xs[i] <= hi
    ensures lo * |xs| as real <= Sum(xs) <= hi * |xs| as real
  {
    if xs != [] {
      SumBetween(xs[1..], lo, hi);
    }
  }
}
