/**
 * The contraction timer card as an object: its state fields, the one-second
 * timer handle, and the browser's local storage that mirrors the unsaved
 * session under a per-user key. Each handler is specified by the session
 * function of module ContractionSession it performs, followed by the storage
 * sync the card's save effect makes after every change of the list. Saving
 * writes one record per contraction in a single batch.
 */
module ContractionTimer {
  import opened Wrappers
  import opened ContractionSession

  const LocalStorageKey: string := "storkwatch_contraction_session"

  /** `${LOCAL_STORAGE_KEY}_${user.uid}`. */
  function StorageKey(uid: string): (key: string)
    ensures |key| == |LocalStorageKey| + 1 + |uid|
    ensures key[..|LocalStorageKey| + 1] == LocalStorageKey + "_"
    ensures key[|LocalStorageKey| + 1..] == uid
  {
    var prefix := LocalStorageKey + "_";
    assert (prefix + uid)[..|prefix|] == prefix;
    prefix + uid
  }

  /** Different users never share a storage entry. */
  lemma StorageKeyInjective(a: string, b: string)
    requires StorageKey(a) == StorageKey(b)
    ensures a == b
  {
    var p := |LocalStorageKey| + 1;
    assert a == StorageKey(a)[p..];
    assert b == StorageKey(b)[p..];
  }

  type Storage = map<string, seq<Contraction>>

  /**
   * Local storage after the save effect has run for the list `cs`: a non-empty
   * list is written under the user's key, an empty one removes the key, and
   * without a signed-in user nothing happens. Other keys are never touched.
   */
  function Synced(storage: Storage, user: Option<string>, cs: seq<Contraction>): (r: Storage)
    ensures user.None? ==> r == storage
    ensures user.Some? && cs == [] ==> StorageKey(user.value) !in r
    ensures user.Some? && cs != [] ==> StorageKey(user.value) in r && r[StorageKey(user.value)] == cs
    ensures forall k :: (user.None? || k != StorageKey(user.value)) ==>
              (k in r <==> k in storage) && (k in r ==> r[k] == storage[k])
  {
    match user
    case None => storage
    case Some(uid) =>
      if cs == [] then storage - {StorageKey(uid)} else storage[StorageKey(uid) := cs]
  }

  /** What the load effect puts in the list on mount: the stored session, if any. */
  function Restored(storage: Storage, user: Option<string>): seq<Contraction> {
    if user.Some? && StorageKey(user.value) in storage then storage[StorageKey(user.value)] else []
  }

  /** Whatever session was mirrored comes back on the next mount. */
  lemma RestoredAfterSync(storage: Storage, user: Option<string>, cs: seq<Contraction>)
    requires user.Some?
    ensures Restored(Synced(storage, user, cs), user) == cs
  {
  }

  /** Syncing the same list twice changes nothing more. */
  lemma SyncedIdempotent(storage: Storage, user: Option<string>, cs: seq<Contraction>)
    ensures Synced(Synced(storage, user, cs), user, cs) == Synced(storage, user, cs)
  {
  }

  /**
   * One document of the save batch. `createdAt` is a server timestamp and the
   * document id is generated by the store; neither is modelled.
   */
  datatype ContractionRecord = ContractionRecord(
    userId: string,
    sessionDate: int,
    contractionStart: int,
    contractionEnd: Option<int>,
    duration: Option<int>,
    intervalBetween: Option<real>,
    intensity: int)

  /** The contraction a record describes. */
  function FromRecord(r: ContractionRecord): Contraction {
    Contraction(r.contractionStart, r.contractionEnd, r.duration, r.intervalBetween, r.intensity)
  }

  /**
   * The record written for `c`. The end is written only when it is truthy, so an
   * end time of 0 is stored as null.
   */
  function ToRecord(uid: string, sessionDate: int, c: Contraction): (r: ContractionRecord)
    ensures r.userId == uid && r.sessionDate == sessionDate
    ensures c.endTime != Some(0) ==> FromRecord(r) == c
    ensures c.endTime == Some(0) ==> FromRecord(r) == c.(endTime := None)
  {
    ContractionRecord(uid, sessionDate, c.startTime,
                      if c.endTime.Some? && c.endTime.value != 0 then c.endTime else None,
                      c.duration, c.interval, c.intensity)
  }

  /** The `forEach` that fills the batch: one record per contraction, in order, all with the same session date. */
  method BuildBatch(uid: string, sessionDate: int, cs: seq<Contraction>) returns (batch: seq<ContractionRecord>)
    ensures |batch| == |cs|
    ensures forall i :: 0 <= i < |cs| ==> batch[i] == ToRecord(uid, sessionDate, cs[i])
    ensures forall i :: 0 <= i < |batch| ==> batch[i].userId == uid && batch[i].sessionDate == sessionDate
    ensures (forall i :: 0 <= i < |cs| ==> cs[i].endTime != Some(0)) ==>
              forall i :: 0 <= i < |cs| ==> FromRecord(batch[i]) == cs[i]
  {
    batch := [];
    var i := 0;
    while i < |cs|
      invariant 0 <= i <= |cs|
      invariant |batch| == i
      invariant forall j :: 0 <= j < i ==> batch[j] == ToRecord(uid, sessionDate, cs[j])
    {
      batch := batch + [ToRecord(uid, sessionDate, cs[i])];
      i := i + 1;
    }
  }

  /** The card's answer to the save button. */
  datatype SaveOutcome = NothingToSave | Saved(count: nat) | SaveFailed

  class ContractionTimerCard {
    /** The signed-in user's id, `None` when signed out. */
    const user: Option<string>
    var isTiming: bool
    var contractions: seq<Contraction>
    var currentDuration: int
    var intensity: int
    /** Whether `timerRef` holds a running one-second interval. */
    var timerScheduled: bool
    /** The browser's local storage. */
    var storage: Storage

    function Model(): Session
      reads this
    {
      Session(isTiming, contractions, currentDuration, intensity)
    }

    /** The interval runs exactly while timing, storage mirrors the list, and the slider is in range. */
    ghost predicate Valid()
      reads this
    {
      && timerScheduled == isTiming
      && storage == Synced(storage, user, contractions)
      && 1 <= intensity <= 10
    }

    /** Mounting: the initial state, then the load effect restores a stored session and the save effect re-syncs it. */
    constructor (user: Option<string>, storage: Storage)
      ensures this.user == user
      ensures Valid()
      ensures Model() == InitialSession.(contractions := Restored(storage, user))
      ensures this.storage == Synced(storage, user, Restored(storage, user))
      ensures user.Some? && StorageKey(user.value) in storage && storage[StorageKey(user.value)] != [] ==>
                this.storage == storage
    {
      this.user := user;
      isTiming := false;
      contractions := Restored(storage, user);
      currentDuration := 0;
      intensity := 5;
      timerScheduled := false;
      this.storage := Synced(storage, user, Restored(storage, user));
      SyncedIdempotent(storage, user, Restored(storage, user));
    }

    /** `startTimer`. */
    method StartTimer(now: int)
      requires Valid()
      modifies this
      ensures Valid()
      ensures Model() == Start(old(Model()), now)
      ensures storage == Synced(old(storage), user, contractions)
    {
      contractions := contractions + [NewContraction(contractions, now, intensity)];
      isTiming := true;
      currentDuration := 0;
      timerScheduled := true;
      storage := Synced(storage, user, contractions);
      SyncedIdempotent(old(storage), user, contractions);
    }

    /** One firing of the interval callback. */
    method Tick()
      requires Valid()
      modifies this`currentDuration
      ensures Valid()
      ensures Model() == ContractionSession.Tick(old(Model()))
    {
      if timerScheduled {
        currentDuration := currentDuration + 1;
      }
    }

    /** `stopTimer`. */
    method StopTimer(now: int)
      requires Valid()
      modifies this
      ensures Valid()
      ensures Model() == Stop(old(Model()), now)
      ensures storage == Synced(old(storage), user, contractions)
    {
      timerScheduled := false;
      isTiming := false;
      contractions := Finalize(contractions, now, currentDuration);
      storage := Synced(storage, user, contractions);
      SyncedIdempotent(old(storage), user, contractions);
    }

    /** `handleStartStop`: the session invariant survives a press. */
    method HandleStartStop(now: int)
      requires Valid()
      modifies this
      ensures Valid()
      ensures Model() == StartStop(old(Model()), now)
      ensures storage == Synced(old(storage), user, contractions)
      ensures SessionInvariant(old(Model())) && ClockAfterLastStart(old(Model()), now) ==> SessionInvariant(Model())
    {
      if SessionInvariant(Model()) && ClockAfterLastStart(Model(), now) {
        StartStopKeepsInvariant(Model(), now);
      }
      if isTiming {
        StopTimer(now);
      } else {
        StartTimer(now);
      }
    }

    /** `handleClearSession`: empties the list, stops a running timer, and removes the stored session. */
    method HandleClearSession(now: int)
      requires Valid()
      modifies this
      ensures Valid()
      ensures Model() == Clear(old(Model()), now)
      ensures storage == Synced(old(storage), user, [])
    {
      contractions := [];
      storage := Synced(storage, user, contractions);
      SyncedIdempotent(old(storage), user, []);
      if isTiming {
        StopTimer(now);
      }
    }

    /** The intensity slider. */
    method SetIntensity(value: int)
      requires Valid() && 1 <= value <= 10
      modifies this`intensity
      ensures Valid()
      ensures Model() == ContractionSession.SetIntensity(old(Model()), value)
    {
      intensity := value;
    }

    /**
     * `handleSaveSession`. Without a user or with an empty list nothing is
     * written. Otherwise one batch holds a record per contraction; when the
     * commit succeeds the session is cleared (at `now`), and when it fails the
     * session stays on the device unchanged.
     */
    method HandleSaveSession(sessionDate: int, now: int, commitSucceeds: bool)
      returns (outcome: SaveOutcome, batch: seq<ContractionRecord>)
      requires Valid()
      modifies this
      ensures Valid()
      ensures user.None? || old(contractions) == [] ==>
                outcome == NothingToSave && batch == [] && Model() == old(Model()) && storage == old(storage)
      ensures user.Some? && old(contractions) != [] ==>
                && |batch| == |old(contractions)|
                && (forall i :: 0 <= i < |batch| ==> batch[i] == ToRecord(user.value, sessionDate, old(contractions)[i]))
                && (commitSucceeds ==> outcome == Saved(|batch|) && Model() == Clear(old(Model()), now)
                                       && storage == Synced(old(storage), user, []))
                && (!commitSucceeds ==> outcome == SaveFailed && Model() == old(Model()) && storage == old(storage))
    {
      if user.None? || contractions == [] {
        return NothingToSave, [];
      }
      batch := BuildBatch(user.value, sessionDate, contractions);
      if commitSucceeds {
        outcome := Saved(|batch|);
        HandleClearSession(now);
      } else {
        outcome := SaveFailed;
      }
    }
  }

  /** A remounted card (same user, same storage) shows the session the old one held; signed out it shows none. */
  method Remount(card: ContractionTimerCard) returns (next: ContractionTimerCard)
    requires card.Valid()
    ensures next.user == card.user && next.storage == card.storage
    ensures next.contractions == if card.user.Some? then card.contractions else []
    ensures !next.isTiming && next.currentDuration == 0
  {
    next := new ContractionTimerCard(card.user, card.storage);
    if card.user.Some? {
      RestoredAfterSync(card.storage, card.user, card.contractions);
    }
  }
}
