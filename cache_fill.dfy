/** `_fetch_uncached_details` (routes/workouts.py:92-130): fill the
    persistent cache with the sessions it lacks. The upstream fetch is an
    oracle `fetched`: an id is a key of it exactly when fetching that id
    returned data; a failed or empty fetch is an absent key. The thread-pool
    fan-out is a sequential loop: each fetch writes its own key. */
module CacheFill {
  import opened Records
  import opened Text
  import opened HistoryCache

  /** One element of `finishedReps`; `float(s.get(k, 0) or 0)` reads a
      missing or null value as 0. Both values are taken to be numbers: the
      `ValueError` a non-numeric string raises is not modelled. */
  datatype RawSet = RawSet(capacity: real, finishedCount: real)

  /** One exercise of a training detail; a missing or null name reads as "". */
  datatype RawExercise = RawExercise(actionLibraryName: string, name: string, finishedReps: seq<RawSet>)

  /** The `data` of a training detail; a missing or null list reads as []. */
  datatype TrainingDetail = TrainingDetail(
    cttActionLibraryTrainingInfoList: seq<RawExercise>,
    actionLibraryTrainingInfoList: seq<RawExercise>)

  /** `training.get(a) or training.get(b) or []`. */
  function ExercisesOf(t: TrainingDetail): seq<RawExercise> {
    if t.cttActionLibraryTrainingInfoList != [] then t.cttActionLibraryTrainingInfoList
    else t.actionLibraryTrainingInfoList
  }

  /** `(ex.get("actionLibraryName") or ex.get("name") or "Unknown").strip()`. */
  function ExerciseName(ex: RawExercise): (r: string)
    ensures ex.actionLibraryName == "" && ex.name == "" ==> r == "Unknown"
    ensures ex.actionLibraryName != "" ==> r == Strip(ex.actionLibraryName)
    ensures ex.actionLibraryName == "" && ex.name != "" ==> r == Strip(ex.name)
  {
    Strip(Or(Or(ex.actionLibraryName, ex.name), "Unknown"))
  }

  /** `sum(capacity of s for s in sets)`. */
  function Volume(sets: seq<RawSet>): real {
    if sets == [] then 0.0 else Volume(sets[..|sets| - 1]) + sets[|sets| - 1].capacity
  }

  predicate Qualifies(s: RawSet) {
    s.capacity > 0.0 && s.finishedCount > 0.0
  }

  /** The heaviest weight per rep over the sets where both the capacity and
      the rep count are positive, or 0 when no set qualifies (its bounds are
      `MaxWeightBounds`). */
  function MaxWeight(sets: seq<RawSet>): real {
    if sets == [] then 0.0
    else
      var m := MaxWeight(sets[..|sets| - 1]);
      var s := sets[|sets| - 1];
      if Qualifies(s) && s.capacity / s.finishedCount > m then s.capacity / s.finishedCount else m
  }

  /** `max_weight` is never negative, bounds the weight per rep of every
      qualifying set, and is attained by one of them unless it is 0. */
  lemma {:induction false} MaxWeightBounds(sets: seq<RawSet>)
    ensures MaxWeight(sets) >= 0.0
    ensures forall k :: 0 <= k < |sets| && Qualifies(sets[k]) ==> sets[k].capacity / sets[k].finishedCount <= MaxWeight(sets)
    ensures MaxWeight(sets) == 0.0 ||
            exists k :: 0 <= k < |sets| && Qualifies(sets[k]) && MaxWeight(sets) == sets[k].capacity / sets[k].finishedCount
  {
    if sets != [] {
      var init := sets[..|sets| - 1];
      MaxWeightBounds(init);
      assert forall k :: 0 <= k < |init| ==> init[k] == sets[k];
      if MaxWeight(sets) != MaxWeight(init) {
        assert MaxWeight(sets) == sets[|sets| - 1].capacity / sets[|sets| - 1].finishedCount;
      }
    }
  }

  /** The record stored for one exercise (without the presentation rounding). */
  function ExtractedRecord(ex: RawExercise): ExerciseRecord {
    ExerciseRecord(ExerciseName(ex), Volume(ex.finishedReps), MaxWeight(ex.finishedReps))
  }

  /** The list stored under a training id: one record per exercise, in order. */
  function ExtractedTraining(t: TrainingDetail): (r: seq<ExerciseRecord>)
    ensures |r| == |ExercisesOf(t)|
    ensures forall k :: 0 <= k < |r| ==> r[k] == ExtractedRecord(ExercisesOf(t)[k])
  {
    var exs := ExercisesOf(t);
    seq(|exs|, k requires 0 <= k < |exs| => ExtractedRecord(exs[k]))
  }

  /** The body of the inner loop over one exercise: the volume sum and the
      running maximum `max_wt`. */
  method ExtractExercise(ex: RawExercise) returns (rec: ExerciseRecord)
    ensures rec.name == ExerciseName(ex)
    ensures rec.volume == Volume(ex.finishedReps)
    ensures rec.maxWeight == MaxWeight(ex.finishedReps)
  {
    var name := Strip(Or(Or(ex.actionLibraryName, ex.name), "Unknown"));
    var sets := ex.finishedReps;
    var vol := Volume(sets);
    var maxWt := 0.0;
    for i := 0 to |sets|
      invariant maxWt == MaxWeight(sets[..i])
    {
      var cap := sets[i].capacity;
      var reps := sets[i].finishedCount;
      assert sets[..i + 1][..i] == sets[..i];
      if cap > 0.0 && reps > 0.0 {
        maxWt := if maxWt >= cap / reps then maxWt else cap / reps;
      }
    }
    assert sets[..|sets|] == sets;
    rec := ExerciseRecord(name, vol, maxWt);
  }

  /** The loop over the exercises of one fetched training. */
  method ExtractTraining(t: TrainingDetail) returns (extracted: seq<ExerciseRecord>)
    ensures extracted == ExtractedTraining(t)
  {
    var exercises := if t.cttActionLibraryTrainingInfoList != [] then t.cttActionLibraryTrainingInfoList
                     else t.actionLibraryTrainingInfoList;
    assert exercises == ExercisesOf(t);
    extracted := [];
    for i := 0 to |exercises|
      invariant |extracted| == i
      invariant forall k :: 0 <= k < i ==> extracted[k] == ExtractedRecord(exercises[k])
    {
      var rec := ExtractExercise(exercises[i]);
      extracted := extracted + [rec];
    }
  }

  /** `to_fetch`: the completed sessions whose id the cache does not hold,
      in their original order (duplicates included). */
  function ToFetch(completed: seq<CompletedRef>, trainings: Trainings): (r: seq<CompletedRef>)
    ensures |r| <= |completed|
    ensures forall w :: w in r <==> w in completed && w.trainingId !in trainings
  {
    if completed == [] then []
    else
      var init := completed[..|completed| - 1];
      var w := completed[|completed| - 1];
      assert completed == init + [w];
      ToFetch(init, trainings) + (if w.trainingId !in trainings then [w] else [])
  }

  /** The ids of a list of references, in order. */
  function Ids(ws: seq<CompletedRef>): (r: seq<TrainingId>)
    ensures |r| == |ws| && forall k :: 0 <= k < |ws| ==> r[k] == ws[k].trainingId
  {
    seq(|ws|, k requires 0 <= k < |ws| => ws[k].trainingId)
  }

  /** The `trainings` map after the fill: the old entries, plus the
      extracted records of every missing id whose fetch returned data. */
  function Filled(trainings: Trainings, completed: seq<CompletedRef>, fetched: map<TrainingId, TrainingDetail>): Trainings {
    var requested := set w | w in ToFetch(completed, trainings) :: w.trainingId;
    trainings + map id | id in requested && id in fetched :: ExtractedTraining(fetched[id])
  }

  /** `_fetch_uncached_details`. `requested` lists the fetches it issues, one
      per element of `to_fetch`; `saved` says whether it calls
      `save_history_cache`. */
  method FetchUncachedDetails(completed: seq<CompletedRef>, cache: HistoryFile, fetched: map<TrainingId, TrainingDetail>)
      returns (updated: HistoryFile, requested: seq<TrainingId>, saved: bool)
    ensures requested == Ids(ToFetch(completed, cache.trainings))
    ensures saved <==> requested != []
    ensures !saved ==> updated == cache
    ensures updated.userId == cache.userId && updated.version == cache.version
    ensures updated.trainings == Filled(cache.trainings, completed, fetched)
  {
    var toFetch := ToFetch(completed, cache.trainings);
    if toFetch == [] {
      updated, requested, saved := cache, [], false;
      FillLoopResult(cache.trainings, completed, fetched, cache.trainings, []);
      return;
    }
    var trainings := cache.trainings;
    requested := [];
    for k := 0 to |toFetch|
      invariant requested == Ids(toFetch[..k])
      invariant forall id :: id in trainings <==> id in cache.trainings || (id in fetched && id in requested)
      invariant forall id :: id in trainings ==>
                  trainings[id] == if id in cache.trainings then cache.trainings[id] else ExtractedTraining(fetched[id])
    {
      var w := toFetch[k];
      assert w in toFetch;
      requested := requested + [w.trainingId];
      if w.trainingId in fetched {
        var extracted := ExtractTraining(fetched[w.trainingId]);
        trainings := trainings[w.trainingId := extracted];
      }
    }
    assert toFetch[..|toFetch|] == toFetch;
    assert requested == Ids(toFetch);
    updated := HistoryFile(cache.userId, trainings, cache.version);
    saved := true;
    FillLoopResult(cache.trainings, completed, fetched, trainings, requested);
  }

  /** What the loop of `FetchUncachedDetails` leaves behind is `Filled`. */
  lemma FillLoopResult(cached: Trainings, completed: seq<CompletedRef>, fetched: map<TrainingId, TrainingDetail>,
                       trainings: Trainings, requested: seq<TrainingId>)
    requires requested == Ids(ToFetch(completed, cached))
    requires forall id :: id in trainings <==> id in cached || (id in fetched && id in requested)
    requires forall id :: id in trainings ==>
               trainings[id] == if id in cached then cached[id] else ExtractedTraining(fetched[id])
    ensures trainings == Filled(cached, completed, fetched)
  {
    var filled := Filled(cached, completed, fetched);
    assert forall id :: id in trainings <==> id in filled by {
      FilledPointwise(cached, completed, fetched);
    }
    assert forall id :: id in trainings ==> trainings[id] == filled[id] by {
      FilledPointwise(cached, completed, fetched);
    }
    SameTrainings(trainings, filled);
  }

  lemma SameTrainings(a: Trainings, b: Trainings)
    requires forall id :: id in a <==> id in b
    requires forall id :: id in a ==> a[id] == b[id]
    ensures a == b
  {
    forall id ensures id in a <==> id in b {}
    forall id | id in a ensures a[id] == b[id] {}
  }

  /** `Filled` key by key: the keys are the old ones and the requested ids
      that were fetched; old keys keep their value. */
  lemma FilledPointwise(trainings: Trainings, completed: seq<CompletedRef>, fetched: map<TrainingId, TrainingDetail>)
    ensures forall id :: id in Filled(trainings, completed, fetched) <==>
              id in trainings || (id in fetched && id in Ids(ToFetch(completed, trainings)))
    ensures forall id :: id in Filled(trainings, completed, fetched) ==>
              Filled(trainings, completed, fetched)[id] ==
                if id in trainings then trainings[id] else ExtractedTraining(fetched[id])
  {
    var toFetch := ToFetch(completed, trainings);
    var ids := Ids(toFetch);
    forall id ensures id in ids <==> exists w :: w in toFetch && w.trainingId == id {
      if id in ids {
        var k :| 0 <= k < |ids| && ids[k] == id;
        assert toFetch[k] in toFetch;
      }
      if exists w :: w in toFetch && w.trainingId == id {
        var w :| w in toFetch && w.trainingId == id;
        var k :| 0 <= k < |toFetch| && toFetch[k] == w;
        assert ids[k] == id;
      }
    }
  }

  // ---------------------------------------------------------------------------
  // What the fill promises

  /** Existing entries are never altered: completed sessions do not change
      after the fact, so a cached entry stays as it is. */
  lemma FilledKeepsExisting(trainings: Trainings, completed: seq<CompletedRef>,
                            fetched: map<TrainingId, TrainingDetail>, id: TrainingId)
    requires id in trainings
    ensures id in Filled(trainings, completed, fetched)
    ensures Filled(trainings, completed, fetched)[id] == trainings[id]
  {
  }

  /** A key is added only for a completed session that was missing and
      whose fetch returned data; a failed fetch leaves the id absent. */
  lemma {:induction false} FilledNewKeys(trainings: Trainings, completed: seq<CompletedRef>,
                                         fetched: map<TrainingId, TrainingDetail>, id: TrainingId)
    requires id !in trainings
    ensures id in Filled(trainings, completed, fetched) <==>
              id in fetched && exists w :: w in completed && w.trainingId == id
    ensures id in Filled(trainings, completed, fetched) ==>
              Filled(trainings, completed, fetched)[id] == ExtractedTraining(fetched[id])
  {
    if id in fetched && exists w :: w in completed && w.trainingId == id {
      var w :| w in completed && w.trainingId == id;
      assert w in ToFetch(completed, trainings);
    }
  }

  /** Only missing ids are requested. */
  lemma RequestsOnlyMissing(completed: seq<CompletedRef>, trainings: Trainings, k: nat)
    requires k < |Ids(ToFetch(completed, trainings))|
    ensures Ids(ToFetch(completed, trainings))[k] !in trainings
    ensures exists w :: w in completed && w.trainingId == Ids(ToFetch(completed, trainings))[k]
  {
    var w := ToFetch(completed, trainings)[k];
    assert w in ToFetch(completed, trainings);
  }

  /** After a fill, the next run over the same sessions requests exactly the
      ids whose fetch failed: a failed session is retried, a fetched one is
      never fetched again. */
  lemma {:induction false} RefillRetriesOnlyFailures(trainings: Trainings, completed: seq<CompletedRef>,
                                                     fetched: map<TrainingId, TrainingDetail>)
    ensures forall w :: w in ToFetch(completed, Filled(trainings, completed, fetched)) <==>
              w in ToFetch(completed, trainings) && w.trainingId !in fetched
  {
    forall w | w in completed && w.trainingId !in trainings
      ensures w.trainingId in Filled(trainings, completed, fetched) <==> w.trainingId in fetched
    {
      FilledNewKeys(trainings, completed, fetched, w.trainingId);
    }
  }

  /** Filling twice with the same fetch results is the same as filling once;
      when every fetch succeeded, the second run fetches nothing. */
  lemma {:induction false} FillIdempotent(trainings: Trainings, completed: seq<CompletedRef>,
                                          fetched: map<TrainingId, TrainingDetail>)
    ensures Filled(Filled(trainings, completed, fetched), completed, fetched) == Filled(trainings, completed, fetched)
    ensures (forall w :: w in completed ==> w.trainingId in trainings || w.trainingId in fetched) ==>
              ToFetch(completed, Filled(trainings, completed, fetched)) == []
  {
    var once := Filled(trainings, completed, fetched);
    RefillRetriesOnlyFailures(trainings, completed, fetched);
    var twice := Filled(once, completed, fetched);
    forall id | id in twice && id !in once
      ensures false
    {
      FilledNewKeys(once, completed, fetched, id);
      FilledNewKeys(trainings, completed, fetched, id);
    }
    assert twice == once;
    if forall w :: w in completed ==> w.trainingId in trainings || w.trainingId in fetched {
      forall w | w in completed ensures w.trainingId in once {
        if w.trainingId !in trainings {
          FilledNewKeys(trainings, completed, fetched, w.trainingId);
        }
      }
      ToFetchEmpty(completed, once);
    }
  }

  /** `to_fetch` is empty exactly when every completed id is cached. */
  lemma {:induction false} ToFetchEmpty(completed: seq<CompletedRef>, trainings: Trainings)
    ensures ToFetch(completed, trainings) == [] <==> forall w :: w in completed ==> w.trainingId in trainings
  {
    if completed != [] && forall w :: w in completed ==> w.trainingId in trainings {
      var init := completed[..|completed| - 1];
      assert forall w :: w in init ==> w in completed;
      ToFetchEmpty(init, trainings);
      assert completed[|completed| - 1] in completed;
    }
  }

  /** With nothing missing, the cache comes back as it was and nothing is
      fetched. */
  lemma NothingMissingNoChange(trainings: Trainings, completed: seq<CompletedRef>,
                               fetched: map<TrainingId, TrainingDetail>)
    requires forall w :: w in completed ==> w.trainingId in trainings
    ensures ToFetch(completed, trainings) == []
    ensures Filled(trainings, completed, fetched) == trainings
  {
    ToFetchEmpty(completed, trainings);
  }
}
