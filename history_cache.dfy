/** The two cache layers of helpers.py: the persistent training-detail cache
    (`exercise_history.json`, loaded by `load_history_cache`) and the
    module-level in-memory result cache `exercise_history_cache`, which the
    routes read, overwrite and reset in place. */
module HistoryCache {
  import opened Wrappers
  import opened Records

  type UserId = string

  /** `CACHE_TTL`: seconds an in-memory result stays valid. */
  const CacheTtl: real := 300.0

  /** `CACHE_VERSION`: bumping it invalidates every persistent entry. */
  const CacheVersion: int := 2

  // ---------------------------------------------------------------------------
  // Persistent cache

  /** The JSON object kept in `exercise_history.json`. A missing `user_id` or
      `version` key reads as `None`, as `dict.get` does. */
  datatype HistoryFile = HistoryFile(userId: Option<UserId>, trainings: Trainings, version: Option<int>)

  /** `{"user_id": user_id, "trainings": {}, "version": CACHE_VERSION}`. */
  function EmptyHistory(userId: Option<UserId>): (c: HistoryFile)
    ensures c.userId == userId && c.trainings == map[] && c.version == Some(CacheVersion)
  {
    HistoryFile(userId, map[], Some(CacheVersion))
  }

  /** `load_history_cache()`. `onDisk` is what parsing the file produced:
      `None` when the file is missing, unreadable or not valid JSON, in which
      case the load fails open to an empty cache owned by nobody. */
  function LoadHistoryCache(onDisk: Option<HistoryFile>): (c: HistoryFile)
    ensures onDisk.None? ==> c.userId == None && c.trainings == map[] && c.version == Some(CacheVersion)
    ensures onDisk.Some? ==> c == onDisk.value
  {
    match onDisk
    case None => EmptyHistory(None)
    case Some(file) => file
  }

  /** The check of `get_exercise_history` after loading: a cache written for
      another user or under another version is replaced by an empty one. */
  function ForUser(c: HistoryFile, user: UserId): (r: HistoryFile)
    ensures r.userId == Some(user) && r.version == Some(CacheVersion)
    ensures c.userId == Some(user) && c.version == Some(CacheVersion) ==> r == c
    ensures c.userId != Some(user) || c.version != Some(CacheVersion) ==> r.trainings == map[]
  {
    if c.userId != Some(user) || c.version != Some(CacheVersion) then EmptyHistory(Some(user)) else c
  }

  /** Whatever was on disk, the cache the pipeline works with belongs to the
      requesting user and the current version, and its entries come from
      the file only when the file already did. */
  lemma ForUserKeepsOnlyMatchingEntries(onDisk: Option<HistoryFile>, user: UserId, id: TrainingId)
    requires id in ForUser(LoadHistoryCache(onDisk), user).trainings
    ensures onDisk.Some? && onDisk.value.userId == Some(user) && onDisk.value.version == Some(CacheVersion)
    ensures id in onDisk.value.trainings
    ensures ForUser(LoadHistoryCache(onDisk), user).trainings[id] == onDisk.value.trainings[id]
  {
  }

  // ---------------------------------------------------------------------------
  // In-memory result cache

  /** `exercise_history_cache`: `data` is `None` until a result is stored and
      again after logout; `timestamp` is the `time.time()` of the last store.
      Logout resets `data`, `timestamp` and `user_id` only, so the three other
      fields keep their last values (they are read only on a hit, and a hit
      needs `data` present, which only a store sets). */
  class ResultCache {
    var data: Option<seq<ExerciseSummary>>
    var dailyVolume: seq<DailyPoint>
    var exerciseDaily: map<string, map<string, real>>
    var exerciseLastTime: map<string, string>
    var timestamp: real
    var userId: Option<UserId>

    /** The module-level initial value `{"data": None, "timestamp": 0,
        "user_id": None}`; the other fields are absent there and read through
        `.get(key, default)`, so they start at those defaults. */
    constructor ()
      ensures data == None && timestamp == 0.0 && userId == None
      ensures dailyVolume == [] && exerciseDaily == map[] && exerciseLastTime == map[]
    {
      data := None;
      dailyVolume := [];
      exerciseDaily := map[];
      exerciseLastTime := map[];
      timestamp := 0.0;
      userId := None;
    }

    /** The lookup at the start of `get_exercise_history`: a hit needs a
        stored result, for the same user, younger than `CACHE_TTL`. */
    method Lookup(user: UserId, now: real) returns (hit: Option<HistoryPayload>)
      ensures hit.Some? <==> data.Some? && userId == Some(user) && now - timestamp < CacheTtl
      ensures hit.Some? ==> hit.value == HistoryPayload(data.value, dailyVolume, exerciseDaily, exerciseLastTime)
    {
      if data.Some? && userId == Some(user) && now - timestamp < CacheTtl {
        hit := Some(HistoryPayload(data.value, dailyVolume, exerciseDaily, exerciseLastTime));
      } else {
        hit := None;
      }
    }

    /** The store at the end of `get_exercise_history`: every field at once. */
    method Store(payload: HistoryPayload, now: real, user: UserId)
      modifies this
      ensures data == Some(payload.exercises) && dailyVolume == payload.dailyVolume
      ensures exerciseDaily == payload.exerciseDaily && exerciseLastTime == payload.exerciseLastTime
      ensures timestamp == now && userId == Some(user)
    {
      data := Some(payload.exercises);
      dailyVolume := payload.dailyVolume;
      exerciseDaily := payload.exerciseDaily;
      exerciseLastTime := payload.exerciseLastTime;
      timestamp := now;
      userId := Some(user);
    }

    /** `logout()`: back to the initial `data`, `timestamp` and `user_id`. */
    method Clear()
      modifies this
      ensures data == None && timestamp == 0.0 && userId == None
      ensures dailyVolume == old(dailyVolume) && exerciseDaily == old(exerciseDaily)
      ensures exerciseLastTime == old(exerciseLastTime)
    {
      data := None;
      timestamp := 0.0;
      userId := None;
    }
  }

  /** Before anything was stored, every lookup misses, whoever asks and
      whatever the clock says. */
  method FirstLookupMisses(user: UserId, now: real) returns (hit: Option<HistoryPayload>)
    ensures hit == None
  {
    var cache := new ResultCache();
    hit := cache.Lookup(user, now);
  }

  /** After a store, the same user gets exactly the stored payload back until
      `CACHE_TTL` seconds have passed, and any other user misses. */
  method StoreThenLookup(cache: ResultCache, payload: HistoryPayload, storedAt: real, user: UserId,
                         asker: UserId, now: real)
      returns (hit: Option<HistoryPayload>)
    modifies cache
    ensures asker == user && now - storedAt < CacheTtl ==> hit == Some(payload)
    ensures asker != user || now - storedAt >= CacheTtl ==> hit == None
  {
    cache.Store(payload, storedAt, user);
    hit := cache.Lookup(asker, now);
  }

  /** After logout nobody hits until the next store, whatever the clock says. */
  method ClearThenLookup(cache: ResultCache, asker: UserId, now: real) returns (hit: Option<HistoryPayload>)
    modifies cache
    ensures hit == None
  {
    cache.Clear();
    hit := cache.Lookup(asker, now);
  }
}
