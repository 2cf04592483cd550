/** The `/api/exercise-history` route of routes/workouts.py: the in-memory
    cache check, then the pipeline (completed sessions, persistent cache
    load and fill, the two aggregations), then the store. The session, the
    clock, the calendar fetch, the file on disk and the detail fetches are
    parameters. */
module ExerciseHistory {
  import opened Wrappers
  import opened Records
  import opened Text
  import opened HistoryCache
  import opened Completed
  import opened CacheFill
  import opened EntryStream
  import opened ExerciseResults
  import opened DailyVolumes

  /** The three answers of the route: 401 without a session token, the
      calendar fetch's own error response, or the payload. */
  datatype Response = Unauthorized | UpstreamError | Ok(payload: HistoryPayload)

  /** The persistent cache the pipeline works on: the file as loaded, reset
      when it belongs to another user or another version. */
  function WorkingCache(onDisk: Option<HistoryFile>, user: UserId): HistoryFile {
    ForUser(LoadHistoryCache(onDisk), user)
  }

  /** What a fresh computation answers: the summaries and all three daily
      aggregations of the entries of the completed sessions over the filled
      cache. */
  ghost predicate FreshPayload(p: HistoryPayload, completed: seq<CompletedRef>, trainings: Trainings, cutoff: string) {
    var entries := Entries(completed, trainings);
    IsResultFor(p.exercises, Group(entries), cutoff) &&
    StrictlyAscending(DatesOf(p.dailyVolume)) &&
    (forall d :: d in DatesOf(p.dailyVolume) <==> d in DailyOf(completed, trainings)) &&
    (forall i :: 0 <= i < |p.dailyVolume| ==> p.dailyVolume[i].volume == DailyOf(completed, trainings)[p.dailyVolume[i].date]) &&
    p.exerciseDaily == ExerciseDailyOf(entries) &&
    p.exerciseLastTime == LastTimeOf(entries)
  }

  /** The in-memory hit condition, on the cache's fields. */
  predicate IsHit(data: Option<seq<ExerciseSummary>>, cachedUser: Option<UserId>, timestamp: real,
                  user: UserId, now: real) {
    data.Some? && cachedUser == Some(user) && now - timestamp < CacheTtl
  }

  /** `get_exercise_history`. `session` is the logged-in user (None without
      a token); `lookupTime` and `storeTime` are the two `time.time()`
      readings; `calendar` is what `fetch_calendar_months(13)` returned
      (None for its error); `cutoff` is today minus 14 days. `written` is
      what the fill saved to disk, if anything. */
  method GetExerciseHistory(cache: ResultCache, session: Option<UserId>, lookupTime: real,
                            calendar: Option<seq<DayRecord>>, onDisk: Option<HistoryFile>,
                            fetched: map<TrainingId, TrainingDetail>, cutoff: string, storeTime: real)
      returns (resp: Response, written: Option<HistoryFile>)
    modifies cache
    ensures session.None? ==> resp == Unauthorized && written == None && unchanged(cache)
    ensures session.Some? && IsHit(old(cache.data), old(cache.userId), old(cache.timestamp), session.value, lookupTime) ==>
              resp == Ok(HistoryPayload(old(cache.data).value, old(cache.dailyVolume), old(cache.exerciseDaily),
                                        old(cache.exerciseLastTime))) &&
              written == None && unchanged(cache)
    ensures session.Some? && !IsHit(old(cache.data), old(cache.userId), old(cache.timestamp), session.value, lookupTime) &&
            calendar.None? ==>
              resp == UpstreamError && written == None && unchanged(cache)
    ensures session.Some? && !IsHit(old(cache.data), old(cache.userId), old(cache.timestamp), session.value, lookupTime) &&
            calendar.Some? ==>
              var completed := CompletedOf(calendar.value);
              var base := WorkingCache(onDisk, session.value);
              var trainings := Filled(base.trainings, completed, fetched);
              resp.Ok? && FreshPayload(resp.payload, completed, trainings, cutoff) &&
              cache.data == Some(resp.payload.exercises) && cache.dailyVolume == resp.payload.dailyVolume &&
              cache.exerciseDaily == resp.payload.exerciseDaily &&
              cache.exerciseLastTime == resp.payload.exerciseLastTime &&
              cache.timestamp == storeTime && cache.userId == session &&
              (written.Some? <==> ToFetch(completed, base.trainings) != []) &&
              (written.Some? ==> written.value == HistoryFile(session, trainings, Some(CacheVersion)))
  {
    if session.None? {
      return Unauthorized, None;
    }
    var user := session.value;
    var hit := cache.Lookup(user, lookupTime);
    if hit.Some? {
      return Ok(hit.value), None;
    }
    if calendar.None? {
      return UpstreamError, None;
    }
    var completed := ExtractCompleted(calendar.value);
    var historyCache := LoadHistoryCache(onDisk);
    if historyCache.userId != Some(user) || historyCache.version != Some(CacheVersion) {
      historyCache := EmptyHistory(Some(user));
    }
    var updated, requested, saved := FetchUncachedDetails(completed, historyCache, fetched);
    var result := BuildExerciseResults(completed, updated.trainings, cutoff);
    var dailyVolume, exerciseDaily, exerciseLastTime := BuildDailyVolumes(completed, updated.trainings);
    var payload := HistoryPayload(result, dailyVolume, exerciseDaily, exerciseLastTime);
    cache.Store(payload, storeTime, user);
    resp := Ok(payload);
    written := if saved then Some(updated) else None;
  }

  /** Two requests by the same user, the first of which misses: the second,
      made within `CACHE_TTL` of the first one's store, is answered from memory with exactly what the
      first computed, whatever the calendar, the file and the fetches say by
      then. */
  method RepeatWithinTtl(cache: ResultCache, user: UserId, t0: real,
                         calendar: Option<seq<DayRecord>>, onDisk: Option<HistoryFile>,
                         fetched: map<TrainingId, TrainingDetail>, cutoff: string, t1: real,
                         calendar2: Option<seq<DayRecord>>, onDisk2: Option<HistoryFile>,
                         fetched2: map<TrainingId, TrainingDetail>, t2: real, t3: real)
      returns (first: Response, second: Response)
    modifies cache
    requires !IsHit(cache.data, cache.userId, cache.timestamp, user, t0)
    requires calendar.Some?
    requires t2 - t1 < CacheTtl
    ensures first.Ok? && second == first
  {
    var w1, w2;
    first, w1 := GetExerciseHistory(cache, Some(user), t0, calendar, onDisk, fetched, cutoff, t1);
    second, w2 := GetExerciseHistory(cache, Some(user), t2, calendar2, onDisk2, fetched2, cutoff, t3);
  }

  /** After logout, the next request of anyone recomputes. */
  method LogoutThenRequest(cache: ResultCache, user: UserId, now: real,
                           calendar: Option<seq<DayRecord>>, onDisk: Option<HistoryFile>,
                           fetched: map<TrainingId, TrainingDetail>, cutoff: string, storeTime: real)
      returns (resp: Response)
    modifies cache
    requires calendar.Some?
    ensures var completed := CompletedOf(calendar.value);
            resp.Ok? &&
            FreshPayload(resp.payload, completed, Filled(WorkingCache(onDisk, user).trainings, completed, fetched), cutoff)
  {
    cache.Clear();
    var written;
    resp, written := GetExerciseHistory(cache, Some(user), now, calendar, onDisk, fetched, cutoff, storeTime);
  }

  /** Sessions from an empty cache: every completed session is to fetch. */
  lemma {:induction false} ToFetchFromEmpty(completed: seq<CompletedRef>)
    ensures ToFetch(completed, map[]) == completed
  {
    if completed != [] {
      ToFetchFromEmpty(completed[..|completed| - 1]);
      assert completed[..|completed| - 1] + [completed[|completed| - 1]] == completed;
    }
  }

  /** A persistent cache that is missing, unreadable, another user's or of
      another version contributes nothing: every completed session is
      fetched again, in calendar order. */
  lemma MismatchRefetchesEverything(onDisk: Option<HistoryFile>, user: UserId, completed: seq<CompletedRef>)
    requires onDisk.None? || onDisk.value.userId != Some(user) || onDisk.value.version != Some(CacheVersion)
    ensures Ids(ToFetch(completed, WorkingCache(onDisk, user).trainings)) == Ids(completed)
  {
    ToFetchFromEmpty(completed);
  }

  /** A file that matches the user and version is kept whole: exactly the
      completed sessions it lacks are fetched. */
  lemma MatchFetchesOnlyMissing(file: HistoryFile, user: UserId, completed: seq<CompletedRef>)
    requires file.userId == Some(user) && file.version == Some(CacheVersion)
    ensures WorkingCache(Some(file), user) == file
    ensures forall w :: w in ToFetch(completed, WorkingCache(Some(file), user).trainings) <==>
              w in completed && w.trainingId !in file.trainings
  {
  }

  /** The fresh answer is determined by its inputs: two payloads that both
      meet `FreshPayload` for the same sessions, cache and cutoff are equal. */
  lemma FreshPayloadUnique(p: HistoryPayload, q: HistoryPayload, completed: seq<CompletedRef>,
                           trainings: Trainings, cutoff: string)
    requires FreshPayload(p, completed, trainings, cutoff)
    requires FreshPayload(q, completed, trainings, cutoff)
    ensures p == q
  {
    var entries := Entries(completed, trainings);
    ResultUnique(p.exercises, q.exercises, Group(entries), cutoff);
    assert DatesOf(p.dailyVolume) == DatesOf(q.dailyVolume) by {
      AscendingUnique(DatesOf(p.dailyVolume), DatesOf(q.dailyVolume));
    }
    DailyPointsEqual(p.dailyVolume, q.dailyVolume, DailyOf(completed, trainings));
  }

  /** Two point lists with the same dates, each carrying the same map's
      value at its date, are equal. */
  lemma DailyPointsEqual(a: seq<DailyPoint>, b: seq<DailyPoint>, daily: map<string, real>)
    requires DatesOf(a) == DatesOf(b)
    requires forall i :: 0 <= i < |a| ==> a[i].date in daily && a[i].volume == daily[a[i].date]
    requires forall i :: 0 <= i < |b| ==> b[i].date in daily && b[i].volume == daily[b[i].date]
    ensures a == b
  {
    assert |a| == |DatesOf(a)| == |DatesOf(b)| == |b|;
    forall i | 0 <= i < |a| ensures a[i] == b[i] {
      assert a[i].date == DatesOf(a)[i] == DatesOf(b)[i] == b[i].date;
    }
  }
}
