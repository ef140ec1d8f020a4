/**
 * The daily missions card: four missions drawn at random for the day, a
 * checkbox per mission, the day's completion flag and a streak of days on
 * which every mission was completed.
 */
module DailyMissions {
  import opened Wrappers

  datatype Mission = Mission(id: string, title: string, description: string, isCompleted: bool)

  /** A mission of the catalogue the day's missions are drawn from. */
  datatype CatalogueMission = CatalogueMission(id: string, title: string, description: string)

  function Fresh(m: CatalogueMission): Mission {
    Mission(m.id, m.title, m.description, false)
  }

  /**
   * `getRandomMissions(arr, n)`: the first `n` missions of a shuffle of the
   * catalogue, none completed. The shuffle (a sort with a random comparator) is
   * the parameter `shuffled`, any rearrangement of the catalogue.
   */
  function GetRandomMissions(catalogue: seq<CatalogueMission>, n: nat, shuffled: seq<CatalogueMission>): (r: seq<Mission>)
    requires multiset(shuffled) == multiset(catalogue)
    ensures |r| == if n < |catalogue| then n else |catalogue|
    ensures forall i :: 0 <= i < |r| ==> !r[i].isCompleted
    ensures forall i :: 0 <= i < |r| ==> exists c :: c in catalogue && r[i] == Fresh(c)
    ensures exists picks: seq<CatalogueMission> ::
              && |picks| == |r|
              && multiset(picks) <= multiset(catalogue)
              && forall i :: 0 <= i < |r| ==> r[i] == Fresh(picks[i])
  {
    assert |shuffled| == |multiset(shuffled)| == |catalogue|;
    var k := if n < |shuffled| then n else |shuffled|;
    var r := seq(k, i requires 0 <= i < k => Fresh(shuffled[i]));
    assert forall i :: 0 <= i < k ==> shuffled[i] in catalogue by {
      forall i | 0 <= i < k
        ensures shuffled[i] in catalogue
      {
        assert shuffled[i] in multiset(shuffled);
      }
    }
    var picks := shuffled[..k];
    assert shuffled == picks + shuffled[k..];
    assert multiset(shuffled) == multiset(picks) + multiset(shuffled[k..]);
    assert forall i :: 0 <= i < k ==> r[i] == Fresh(picks[i]);
    r
  }

  /**
   * Nothing is drawn twice: when the catalogue lists each mission once, the
   * day's missions are pairwise different.
   */
  lemma DrawnMissionsDistinct(catalogue: seq<CatalogueMission>, n: nat, shuffled: seq<CatalogueMission>)
    requires multiset(shuffled) == multiset(catalogue)
    requires forall i, j :: 0 <= i < j < |catalogue| ==> catalogue[i] != catalogue[j]
    ensures var r := GetRandomMissions(catalogue, n, shuffled);
            forall i, j :: 0 <= i < j < |r| ==> r[i] != r[j]
  {
    var r := GetRandomMissions(catalogue, n, shuffled);
    var picks: seq<CatalogueMission> :|
      |picks| == |r| && multiset(picks) <= multiset(catalogue) && forall i :: 0 <= i < |r| ==> r[i] == Fresh(picks[i]);
    forall i, j | 0 <= i < j < |r| ensures r[i] != r[j] {
      if r[i] == r[j] {
        assert picks[i] == picks[j];
        TwiceInMultiset(picks, i, j);
        OnceInDistinct(catalogue, picks[i]);
        assert false;
      }
    }
  }

  /** An element at two positions of a sequence occurs at least twice in its multiset. */
  lemma TwiceInMultiset<T>(xs: seq<T>, i: nat, j: nat)
    requires i < j < |xs| && xs[i] == xs[j]
    ensures multiset(xs)[xs[i]] >= 2
  {
    var x := xs[i];
    assert xs == xs[..j] + xs[j..];
    assert xs[..j] == xs[..i] + xs[i..j];
    assert xs[i..j][0] == x;
    assert x in multiset(xs[i..j]);
    assert xs[j..][0] == x;
    assert x in multiset(xs[j..]);
    assert multiset(xs) == multiset(xs[..i]) + multiset(xs[i..j]) + multiset(xs[j..]);
  }

  /** In a sequence without repeats every element occurs at most once. */
  lemma {:induction false} OnceInDistinct<T>(xs: seq<T>, x: T)
    requires forall i, j :: 0 <= i < j < |xs| ==> xs[i] != xs[j]
    ensures multiset(xs)[x] <= 1
  {
    if xs != [] {
      assert xs == [xs[0]] + xs[1..];
      OnceInDistinct(xs[1..], x);
      if xs[0] == x {
        assert x !in xs[1..];
      }
    }
  }

  /** The `map` of `handleMissionCheck`: the mission with that id flips, nothing else changes. */
  function ToggleMission(ms: seq<Mission>, id: string): (r: seq<Mission>)
    ensures |r| == |ms|
    ensures forall i :: 0 <= i < |ms| ==>
              r[i] == if ms[i].id == id then ms[i].(isCompleted := !ms[i].isCompleted) else ms[i]
  {
    seq(|ms|, i requires 0 <= i < |ms| => if ms[i].id == id then ms[i].(isCompleted := !ms[i].isCompleted) else ms[i])
  }

  /** Checking the same box twice undoes it. */
  lemma ToggleTwice(ms: seq<Mission>, id: string)
    ensures ToggleMission(ToggleMission(ms, id), id) == ms
  {
    var r := ToggleMission(ToggleMission(ms, id), id);
    assert forall i :: 0 <= i < |ms| ==> r[i] == ms[i];
  }

  /** `every(m => m.isCompleted)`; true for an empty list. */
  predicate AllCompleted(ms: seq<Mission>) {
    forall i :: 0 <= i < |ms| ==> ms[i].isCompleted
  }

  function CompletedCount(ms: seq<Mission>): (n: nat)
    ensures n <= |ms|
    ensures n == |ms| <==> AllCompleted(ms)
  {
    if ms == [] then 0
    else
      assert AllCompleted(ms) <==> ms[0].isCompleted && AllCompleted(ms[1..]) by {
        assert forall i :: 0 < i < |ms| ==> ms[i] == ms[1..][i - 1];
      }
      (if ms[0].isCompleted then 1 else 0) + CompletedCount(ms[1..])
  }

  /** The progress bar: the completed share in percent, 0 for no missions; full exactly when all are done. */
  function Progress(ms: seq<Mission>): (p: real)
    ensures 0.0 <= p <= 100.0
    ensures p == 100.0 <==> ms != [] && AllCompleted(ms)
    ensures p == 0.0 <==> ms == [] || CompletedCount(ms) == 0
    ensures ms != [] ==> p * |ms| as real == CompletedCount(ms) as real * 100.0
  {
    if |ms| > 0 then
      Percentage(CompletedCount(ms), |ms|);
      (CompletedCount(ms) as real / |ms| as real) * 100.0
    else 0.0
  }

  lemma Percentage(c: nat, n: nat)
    requires 0 < n && c <= n
    ensures 0.0 <= (c as real / n as real) * 100.0 <= 100.0
    ensures (c as real / n as real) * 100.0 == 100.0 <==> c == n
    ensures (c as real / n as real) * 100.0 == 0.0 <==> c == 0
    ensures (c as real / n as real) * 100.0 * n as real == c as real * 100.0
  {
    var x := c as real / n as real;
    assert x * n as real == c as real;
    if c == n {
      assert x == 1.0;
    } else if c == 0 {
      assert x == 0.0;
    } else {
      assert x * n as real < n as real;
    }
  }

  /** The streak fields of the profile (`|| 0` for missing counts) and the day of the last full completion. */
  datatype MissionProfile = MissionProfile(missionStreak: int, longestMissionStreak: int, lastCompletionDay: Option<int>)

  /**
   * The streak step when every mission is done: once per day, the streak grows by
   * one and the longest streak is raised to it; a second completion the same day
   * changes nothing.
   */
  function CompleteDay(p: MissionProfile, today: int): (r: Option<MissionProfile>)
    ensures p.lastCompletionDay == Some(today) <==> r.None?
    ensures r.Some? ==> r.value.missionStreak == p.missionStreak + 1
                        && r.value.lastCompletionDay == Some(today)
                        && r.value.longestMissionStreak >= r.value.missionStreak
                        && r.value.longestMissionStreak >= p.longestMissionStreak
                        && (r.value.longestMissionStreak == p.longestMissionStreak
                            || r.value.longestMissionStreak == r.value.missionStreak)
  {
    if p.lastCompletionDay == Some(today) then None
    else
      var s := p.missionStreak + 1;
      Some(MissionProfile(s, if p.longestMissionStreak > s then p.longestMissionStreak else s, Some(today)))
  }

  /** Completing twice on one day counts once. */
  lemma CompleteDayOncePerDay(p: MissionProfile, today: int)
    requires CompleteDay(p, today).Some?
    ensures CompleteDay(CompleteDay(p, today).value, today).None?
  {
  }

  /** Today's mission document: `generatedAt` is a timestamp and is not modelled. */
  datatype MissionDoc = MissionDoc(missions: seq<Mission>, isCompleted: bool)

  class DailyMissionsCard {
    const user: Option<string>
    /** The day number of today (for `isToday`). */
    const today: int
    var missions: seq<Mission>
    var streak: int
    /** The store: today's mission document and the profile. */
    var todaysDoc: Option<MissionDoc>
    var profile: MissionProfile

    constructor (user: Option<string>, today: int, todaysDoc: Option<MissionDoc>, profile: MissionProfile)
      ensures this.user == user && this.today == today
      ensures this.todaysDoc == todaysDoc && this.profile == profile
      ensures missions == [] && streak == 0
    {
      this.user := user;
      this.today := today;
      missions := [];
      streak := 0;
      this.todaysDoc := todaysDoc;
      this.profile := profile;
    }

    /**
     * `fetchMissions`: today's stored missions are shown; without a document, four
     * fresh missions are drawn, stored and shown.
     */
    method FetchMissions(catalogue: seq<CatalogueMission>, shuffled: seq<CatalogueMission>)
      requires user.Some? && multiset(shuffled) == multiset(catalogue)
      modifies this
      ensures streak == profile.missionStreak && profile == old(profile)
      ensures old(todaysDoc).Some? ==> missions == old(todaysDoc).value.missions && todaysDoc == old(todaysDoc)
      ensures old(todaysDoc).None? ==>
                missions == GetRandomMissions(catalogue, 4, shuffled) && todaysDoc == Some(MissionDoc(missions, false))
    {
      streak := profile.missionStreak;
      if todaysDoc.Some? {
        missions := todaysDoc.value.missions;
      } else {
        var drawn := GetRandomMissions(catalogue, 4, shuffled);
        todaysDoc := Some(MissionDoc(drawn, false));
        missions := drawn;
      }
    }

    /**
     * `handleMissionCheck`: the list flips at once; signed in, today's document
     * takes the new list and the completion flag, and when every mission is done
     * the streak advances at most once per day.
     */
    method HandleMissionCheck(id: string, commitSucceeds: bool)
      modifies this
      ensures missions == ToggleMission(old(missions), id)
      ensures user.None? ==> todaysDoc == old(todaysDoc) && profile == old(profile) && streak == old(streak)
      ensures user.Some? ==> todaysDoc == Some(MissionDoc(missions, AllCompleted(missions)))
      ensures !AllCompleted(missions) || !commitSucceeds || CompleteDay(old(profile), today).None? ==>
                profile == old(profile) && streak == old(streak)
      ensures user.Some? && AllCompleted(missions) && commitSucceeds && CompleteDay(old(profile), today).Some? ==>
                profile == CompleteDay(old(profile), today).value && streak == profile.missionStreak
    {
      var updated := ToggleMission(missions, id);
      missions := updated;
      var allCompleted := AllCompleted(updated);
      if user.Some? {
        todaysDoc := Some(MissionDoc(updated, allCompleted));
        if allCompleted {
          var next := CompleteDay(profile, today);
          if next.Some? && commitSucceeds {
            profile := next.value;
            streak := next.value.missionStreak;
          }
        }
      }
    }
  }
}
