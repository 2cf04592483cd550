/** The values the exercise-history pipeline passes between its stages
    (routes/workouts.py): references to completed sessions, the per-exercise
    records kept in the persistent cache, and the aggregated output. */
module Records {

  /** A completed session's `trainingId`. The persistent cache keys its
      `trainings` dictionary by `str(trainingId)`; `str` is injective on the
      integer ids, so the model keys by the id itself. */
  type TrainingId = int

  /** One exercise of one session as stored in the persistent cache:
      `{"name", "volume", "max_weight"}` (routes/workouts.py:126). */
  datatype ExerciseRecord = ExerciseRecord(name: string, volume: real, maxWeight: real)

  /** `history_cache["trainings"]`. */
  type Trainings = map<TrainingId, seq<ExerciseRecord>>

  /** `{"date", "trainingId", "finishTime"}` built by `_extract_completed`. */
  datatype CompletedRef = CompletedRef(date: string, trainingId: TrainingId, finishTime: string)

  /** `history_cache.get("trainings", {}).get(tid, [])`. */
  function RecordsOf(trainings: Trainings, id: TrainingId): seq<ExerciseRecord> {
    if id in trainings then trainings[id] else []
  }

  /** One entry of an exercise's history: `{"date", "volume", "max_weight"}`. */
  datatype Session = Session(date: string, volume: real, maxWeight: real)

  /** One element of the `exercises` list returned by `_build_exercise_results`. */
  datatype ExerciseSummary = ExerciseSummary(
    name: string,
    count: nat,
    history: seq<Session>,
    allHistory: seq<Session>,
    maxWeight: real)

  /** One element of `daily_volume`: `{"date", "volume"}`. */
  datatype DailyPoint = DailyPoint(date: string, volume: real)

  /** The payload of `/api/exercise-history`, the value the in-memory cache keeps. */
  datatype HistoryPayload = HistoryPayload(
    exercises: seq<ExerciseSummary>,
    dailyVolume: seq<DailyPoint>,
    exerciseDaily: map<string, map<string, real>>,
    exerciseLastTime: map<string, string>)
}
