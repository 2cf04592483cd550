# GymMonsterAnalytics: exercise history and template sets, in Dafny

This project models the computational core of GymMonsterAnalytics, a Flask
front end to the Speediance Gym Monster API, and proves properties of that
model. The core has three parts.

- **The exercise-history pipeline** behind `/api/exercise-history`
  (`routes/workouts.py`). It checks an in-memory result cache first. On a
  miss it:
  - extracts the completed sessions from the calendar;
  - loads the persistent per-session detail cache, resetting it when it
    belongs to another user or cache version;
  - fetches and extracts the sessions the cache lacks;
  - computes the per-exercise summaries and three daily aggregations;
  - stores the answer in memory.
- **The result cache** of `helpers.py`: `CACHE_TTL = 300`,
  `CACHE_VERSION = 2`, `load_history_cache`, and the reset that logout
  performs (`routes/auth.py`).
- **The comma-separated set columns of workout templates**. These are read
  in three places:
  - the planned-volume sum of `get_templates`;
  - the set builder of `export_templates`;
  - the kg to internal-unit weight rewrite of `save_workout_template`.

Modules:
- `Wrappers`: `Option`.
- `Text`: Python's `strip`, string truthiness (`or`), string order, `sorted`
  over dictionary keys, `split(",")` and `",".join`.
- `Records`: the values passed between pipeline stages.
- `HistoryCache`: the persistent file and the in-memory `ResultCache` class.
- `Completed`: `_extract_completed`.
- `CacheFill`: `_fetch_uncached_details`.
- `EntryStream`: the positive-volume record stream both aggregations walk.
- `ExerciseResults`: `_build_exercise_results`.
- `DailyVolumes`: `_build_daily_volumes`.
- `ExerciseHistory`: the route itself.
- `Templates`: the three template loops.

Each loop of the source is a method with a `while`/`for` loop. It is proved
equal to a recursive specification function, and the properties the source
relies on are lemmas about those functions. The in-memory cache dictionary
is a class whose fields the route, the store and logout update in place.

`_fetch_uncached_details` submits one fetch per element of `to_fetch`,
duplicates included, because the dictionary of futures at
`routes/workouts.py:101-104` is keyed by future.
`CacheFill.FetchUncachedDetails` reports each of them in `requested`. Both
fetches of a duplicate write the same value, so the filled cache is the same
either way.

## Model

| member | source | states |
|---|---|---|
| Text.Or | routes/workouts.py:117 | `a or b` on strings: the result is `a` when `a` is non-empty and `b` otherwise, so it is empty only when both are |
| Text.Strip | routes/workouts.py:117 | `strip()` returns a string no longer than its input that neither starts nor ends with a character `str.isspace()` accepts |
| Text.StripSplits | routes/workouts.py:117 | `strip()` keeps the middle of the string: the result is the infix of the input left after removing a leading and a trailing run of whitespace |
| Text.StripIdempotent | routes/workouts.py:502 | stripping an already stripped piece changes nothing |
| Text.SortedKeys | routes/workouts.py:154 | `sorted(d.items())` visits every key exactly once, in strictly ascending order |
| Text.AscendingUnique | routes/workouts.py:194 | two strictly ascending lists with the same elements are equal, so the iteration order of `sorted` depends on the keys alone |
| Text.SplitShape | routes/workouts.py:295-297 | `split(",")` yields one piece more than the string has commas, and no piece holds a comma |
| Text.JoinSplit | routes/workouts.py:498 | joining the pieces of a split with "," gives the original column back |
| Text.SplitJoin | routes/workouts.py:517 | splitting a join of comma-free pieces gives the same pieces back |
| Completed.ExtractCompleted | routes/workouts.py:77-89 | the two nested loops return exactly `CompletedOf(days)` |
| Completed.CompletedMembership | routes/workouts.py:80-88 | a reference is extracted iff some plan of some day has `isFinish == 1` and a truthy `trainingId`; it carries that day's date and that plan's id and finish time |
| Completed.CompletedPlansMembership | routes/workouts.py:82-88 | within one day, a reference comes from a finished plan with a truthy id, and every such plan gives one |
| Completed.CompletedOfAppend | routes/workouts.py:80-88 | calendar order is kept: extracting two stretches of days separately and concatenating equals extracting them together |
| HistoryCache.EmptyHistory | routes/workouts.py:230 | the reset cache belongs to the given user, holds no trainings and carries `CACHE_VERSION` |
| HistoryCache.LoadHistoryCache | helpers.py:58-66 | a missing or unreadable file loads as an empty cache owned by nobody at the current version; otherwise the file's contents come back unchanged |
| HistoryCache.ForUser | routes/workouts.py:228-230 | the working cache always belongs to the requesting user at `CACHE_VERSION`; a matching file is kept whole, any other is emptied |
| HistoryCache.ForUserKeepsOnlyMatchingEntries | routes/workouts.py:228-230 | an entry of the working cache comes from a file on disk that matched both user and version, with that file's value |
| HistoryCache.ResultCache.constructor | helpers.py:31 | the process starts with `data` None, `timestamp` 0 and `user_id` None |
| HistoryCache.ResultCache.Lookup | routes/workouts.py:207-219 | a hit happens iff data is present, the user matches and less than `CACHE_TTL` (300 s) has passed since the store; a hit returns the four stored fields |
| HistoryCache.ResultCache.Store | routes/workouts.py:239-245 | all four result fields, the timestamp and the user are replaced |
| HistoryCache.ResultCache.Clear | routes/auth.py:86-89 | logout resets `data`, `timestamp` and `user_id` and leaves the other fields as they were |
| HistoryCache.FirstLookupMisses | helpers.py:31-33 | before the first store, every lookup misses, for any user and any clock |
| HistoryCache.StoreThenLookup | routes/workouts.py:207-245 | after a store, the same user gets the stored payload back until `CACHE_TTL` has passed, and any other user or a later time misses |
| HistoryCache.ClearThenLookup | routes/auth.py:86-89 | after logout nobody hits, whatever the clock says |
| CacheFill.ExerciseName | routes/workouts.py:117 | the name is `actionLibraryName`, else `name`, else "Unknown", stripped |
| CacheFill.MaxWeightBounds | routes/workouts.py:120-125 | `max_wt` is never negative, bounds capacity/reps of every set with both positive, and equals one of them unless it is 0 |
| CacheFill.ExtractExercise | routes/workouts.py:116-126 | one exercise's record carries its name, the sum of its capacities and the running maximum weight per rep |
| CacheFill.ExtractedTraining | routes/workouts.py:110-126 | one record per exercise of the first non-empty exercise list, in order |
| CacheFill.ExtractTraining | routes/workouts.py:110-126 | the loop over a fetched training's exercises returns `ExtractedTraining` |
| CacheFill.ToFetch | routes/workouts.py:94-95 | `to_fetch` holds exactly the completed sessions whose id is not cached, and is no longer than `completed` |
| CacheFill.FetchUncachedDetails | routes/workouts.py:92-130 | one fetch per element of `to_fetch`, in order; the cache is saved iff something was to fetch; with nothing to fetch the cache comes back unchanged; otherwise the trainings become `Filled` and owner and version are kept |
| CacheFill.FilledPointwise | routes/workouts.py:100-127 | after the fill, the keys are the old ones plus the requested ids whose fetch returned data; old keys keep their value and new ones hold the extracted records |
| CacheFill.FilledKeepsExisting | routes/workouts.py:94-95 | a cached entry is never altered by a fill |
| CacheFill.FilledNewKeys | routes/workouts.py:105-127 | a key is added iff its session was completed, missing and fetched successfully; a failed fetch leaves it absent |
| CacheFill.RequestsOnlyMissing | routes/workouts.py:95-104 | every requested id belongs to a completed session and is not in the cache |
| CacheFill.RefillRetriesOnlyFailures | routes/workouts.py:94-109 | the next run over the same sessions requests exactly the sessions whose fetch failed |
| CacheFill.FillIdempotent | routes/workouts.py:92-130 | filling twice with the same fetch results equals filling once; when every fetch succeeded, the next run fetches nothing |
| CacheFill.ToFetchEmpty | routes/workouts.py:95-97 | `to_fetch` is empty exactly when every completed id is cached |
| CacheFill.NothingMissingNoChange | routes/workouts.py:97-98 | with nothing missing, nothing is fetched and the cache is returned unchanged |
| EntryStream.SessionEntriesMembership | routes/workouts.py:139-142 | an entry of one session is exactly a record of it with positive volume, tagged with the session's date and finish time |
| EntryStream.EntriesMembership | routes/workouts.py:136-142 | an entry of the stream is exactly a positive-volume record of a completed session held in the cache |
| EntryStream.EntriesPositive | routes/workouts.py:140-142 | no record with zero or negative volume reaches either aggregation |
| EntryStream.SessionEntriesTagged | routes/workouts.py:174-178 | every entry a session contributes carries that session's date and finish time |
| ExerciseResults.GroupIsFilter | routes/workouts.py:135-151 | `exercise_map` has a key exactly for the exercises with an entry; its sessions are that exercise's entries in stream order and its count is their number |
| ExerciseResults.SessionsNamedMembership | routes/workouts.py:143-151 | a session of an exercise is exactly an entry of that name, as a date/volume/max-weight triple |
| ExerciseResults.GroupWellFormed | routes/workouts.py:144-147 | every bucket holds at least one session, and its count equals its number of sessions |
| ExerciseResults.SortByDateCorrect | routes/workouts.py:155 | the sort orders sessions by date, is a permutation, and is stable (sessions of one date keep their order) |
| ExerciseResults.MaxOfBounds | routes/workouts.py:158 | the overall maximum bounds every session's `max_weight` and is one of them; with no session it is the default 0 |
| ExerciseResults.RecentIffSessionSince | routes/workouts.py:155-157 | an exercise survives the cutoff iff one of its sessions falls on or after the cutoff date |
| ExerciseResults.SummaryFacts | routes/workouts.py:159-165 | a summary keeps the name and the count, and its `all_history` is a date-sorted permutation of the sessions |
| ExerciseResults.SummaryHistory | routes/workouts.py:162 | `history` is the last min(20, n) sessions of `all_history` |
| ExerciseResults.LatestIsSuffix | routes/workouts.py:162 | `sessions[-20:]` is the suffix of length min(20, n) |
| ExerciseResults.SummaryMaxCoversAll | routes/workouts.py:158 | `max_weight` ranges over every session, not only the 20 shown, and is attained by one |
| ExerciseResults.SummariesElements | routes/workouts.py:153-165 | every appended element is the summary of a visited exercise that survived the cutoff |
| ExerciseResults.SummariesComplete | routes/workouts.py:153-165 | every visited exercise that survives the cutoff is appended |
| ExerciseResults.SummariesAscending | routes/workouts.py:154 | visiting names in ascending order gives results in ascending name order |
| ExerciseResults.SummariesCorrect | routes/workouts.py:153-166 | the second loop over the sorted keys produces a result meeting `ResultOver` for those keys |
| ExerciseResults.ResultUnique | routes/workouts.py:133-166 | the result is determined by the grouping and the cutoff: two lists that both meet `IsResultFor` are equal |
| ExerciseResults.AddSessionRecords | routes/workouts.py:138-151 | the inner loop turns `Group(before)` into `Group` of `before` plus this session's entries |
| ExerciseResults.BuildExerciseResults | routes/workouts.py:133-166 | the result lists, in ascending name order, exactly the summaries of the exercises that survive the cutoff |
| DailyVolumes.VolumeOnPositive | routes/workouts.py:191-192 | with positive volumes, a date's volume is never negative and is positive iff some entry falls on it |
| DailyVolumes.DailyOfIsSum | routes/workouts.py:174-192 | `daily_vol_map` holds a date iff its positive-volume records sum to more than 0, and its value is that sum over all sessions of the day |
| DailyVolumes.DailyDatesAreTrainingDays | routes/workouts.py:191-192 | a date is in `daily_vol_map` iff some positive-volume record of a completed session falls on it |
| DailyVolumes.ExerciseDailyNames | routes/workouts.py:185-187 | `exercise_daily` has a key exactly for the exercises with an entry |
| DailyVolumes.ExerciseDailyAt | routes/workouts.py:186-188 | `exercise_daily[name][date]` is never negative, is present iff that exercise has positive volume on the date, and equals that volume |
| DailyVolumes.LastTimeAt | routes/workouts.py:189-190 | `exercise_last_time[name]` is present iff the exercise has an entry with a non-empty finish time; it is one of those times and the greatest of them |
| DailyVolumes.AddSession | routes/workouts.py:178-190 | the inner loop returns the session's total and extends both per-exercise dictionaries by its entries |
| DailyVolumes.SortedPoints | routes/workouts.py:194 | `daily_volume` lists every date of the map exactly once, in strictly ascending order, each with its volume |
| DailyVolumes.BuildDailyVolumes | routes/workouts.py:169-195 | `daily_volume` is `DailyOf` in ascending date order; `exercise_daily` and `exercise_last_time` are the folds over the entry stream |
| Templates.NamesOf | routes/workouts.py:288 | the `names` list has one element per exercise: its title, or "Unknown" without one |
| Templates.TemplateSummary | routes/workouts.py:286-313 | returns the names list and a planned volume equal to the sum of `SetPlanned` over all sets of all exercises |
| Templates.AddExercisePlanned | routes/workouts.py:291-312 | the set loop adds exactly `ExercisePlanned` to `planned_vol` |
| Templates.SetContribution | routes/workouts.py:298-312 | one iteration adds `SetPlanned`: 0 on each `continue` and on a ValueError, otherwise reps times the handle-adjusted weight |
| Templates.TemplatePlannedAppend | routes/workouts.py:291-310 | planned volume is additive over the exercises of a template |
| Templates.SetPlannedSkips | routes/workouts.py:299-311 | a set that adds anything has non-blank reps, no counterweight, and reps and weight that parse |
| Templates.CounterweightedPlansNothing | routes/workouts.py:301-303 | an exercise whose sets are all blank or counterweighted plans 0, whatever its weights |
| Templates.DualIsTwiceSingle | routes/workouts.py:307-310 | an unmapped (dual-handle) exercise plans exactly twice what it plans when mapped to any other handle type |
| Templates.RepsOf | routes/workouts.py:416-426 | a set's reps are `"<piece>s"` exactly when the set is timed, the integer value of the piece exactly when it is untimed and all ASCII digits, and the piece itself otherwise |
| Templates.RestSeconds | routes/workouts.py:421-430 | the rest is the integer value of the piece when it is all digits, and 0 otherwise (blank, missing or not a number) |
| Templates.SideOf | routes/workouts.py:434-437 | `side` is Left exactly for code "1", Right exactly for "2", and absent for any other code |
| Templates.RecordAtFields | routes/workouts.py:416-437 | the set built at a position takes its reps (timed exactly when the unstripped count type is "2"), mode, rest and side from that same position of their columns |
| Templates.ModeName | routes/workouts.py:429 | the mode is never empty and is either a mode name or the code itself |
| Templates.ModeNameTable | routes/workouts.py:383 | codes 1 to 4 map to Standard, Eccentric, Eccentric and Chain; a blank code reads as Standard; any other code passes through |
| Templates.ExportName | routes/workouts.py:403 | an exported exercise's name is its `title` when that is non-empty, else its `name` when that is non-empty, else "Unknown"; so it is never empty |
| Templates.ExportExercise | routes/workouts.py:403-440 | the set loop returns `ExportOf`: the records at the built positions, or None when a weight raises |
| Templates.NoRecovery | routes/workouts.py:418 | once a weight has raised, the exercise's export has failed whatever follows |
| Templates.ExportExercises | routes/workouts.py:402-440 | the exercises of one template export in order, or the export fails |
| Templates.ExportTemplates | routes/workouts.py:397-441 | every template, in list order, with its exercises exported and "Untitled" for a missing name, or failure when any weight raises |
| Templates.AllFailsAfter | routes/workouts.py:402-440 | one failing exercise fails its whole template |
| Templates.TemplatesFailAfter | routes/workouts.py:397-441 | one failing template fails the whole export |
| Templates.PositionsValid | routes/workouts.py:413-418 | sets are built at strictly increasing positions, each with a non-blank reps piece and a weight that parses |
| Templates.PositionsComplete | routes/workouts.py:413-415 | no non-blank reps piece is dropped |
| Templates.PositionsFailIff | routes/workouts.py:413-418 | an exercise's export fails iff some non-blank reps piece has a weight piece that does not parse |
| Templates.RecordAtWeights | routes/workouts.py:425-428 | the set at position i is numbered i + 1, carries the parsed weight per handle, and its total is twice that |
| Templates.SetNumbers | routes/workouts.py:425 | the sets of a position list are numbered by those positions |
| Templates.ExportedSetsBuilt | routes/workouts.py:413-438 | every exported set comes from a non-blank reps piece at its own position, carries that position's parsed weight, and its total is twice it |
| Templates.ExportedSetsOrdered | routes/workouts.py:413-438 | an exported exercise has exactly one set per non-blank reps piece, in column order |
| Templates.CounterweightRmIff | routes/workouts.py:432-433 | a set carries `counterweight_rm` iff its raw counterweight piece is neither blank nor "0", and then carries that piece |
| Templates.ConvertPiece | routes/workouts.py:502-516 | one iteration of the rewrite: the stripped piece is kept when it is blank, the set is counterweighted or the piece is not a number; otherwise it becomes `format(kg * KG_TO_API)` |
| Templates.ConvertWeights | routes/workouts.py:496-517 | the rewrite loop returns `RewrittenWeights`: each piece stripped, and converted with `KG_TO_API` unless blank, counterweighted or not a number |
| Templates.RewriteTemplate | routes/workouts.py:495-517 | every exercise keeps all its fields but `weights`, which is rewritten |
| Templates.RewriteKeepsPieces | routes/workouts.py:498-517 | the rewritten column splits into as many pieces as before; blank, counterweighted or non-numeric pieces come back stripped, and numeric ones become `format(kg * 2.2)` |
| ExerciseHistory.GetExerciseHistory | routes/workouts.py:198-247 | 401 without a session; a hit returns the stored payload and changes nothing; a calendar error is passed on; otherwise a fresh payload over the filled cache is returned and stored for this user at the store time, and the file is written iff something was to fetch |
| ExerciseHistory.RepeatWithinTtl | routes/workouts.py:207-245 | a second request by the same user within `CACHE_TTL` of the first's store gets exactly the first answer |
| ExerciseHistory.LogoutThenRequest | routes/auth.py:86-89 | after logout the next request recomputes a fresh payload |
| ExerciseHistory.ToFetchFromEmpty | routes/workouts.py:94-95 | against an empty cache every completed session is to fetch |
| ExerciseHistory.MismatchRefetchesEverything | routes/workouts.py:228-232 | a missing, unreadable, foreign or old-version cache file makes every completed session be fetched again, in calendar order |
| ExerciseHistory.MatchFetchesOnlyMissing | routes/workouts.py:228-232 | a matching file is used whole, and exactly the completed sessions it lacks are fetched |
| ExerciseHistory.FreshPayloadUnique | routes/workouts.py:226-237 | the fresh answer is determined by the sessions, the filled cache and the cutoff |

## Left out

- HTTP, JSON, Flask sessions, the lock and the thread pools are not modelled. The detail pool of `_fetch_uncached_details` (`routes/workouts.py:100-127`) runs as a sequential loop. Its results are written under distinct keys (duplicates write the same value), so completion order does not matter. The two template-detail pools (`routes/workouts.py:319-328` and `386-395`) are not modelled; their results are the inputs `exercises` of `Templates.TemplateSummary` and `details` of `Templates.ExportTemplates`.
- The session token, `time.time()`, `datetime.now()` and the cutoff date are inputs. So are the calendar (`fetch_calendar_months(13, ...)`, with None for its error response) and the result of every detail fetch.
- `fetch_calendar_months`, `check_session_expired`, `_fetch_training_detail`, `auth_headers` and `load_handle_types` are not part of this model: the calendar, each detail fetch and the handle-type table are inputs.
- Numbers are reals. `round(..., 1)` on stored volumes, weights, daily totals and planned volume is not modelled, and neither is float rounding.
- Python's `float(str)` is the parameter `parse`, and `f"{v:.1f}"` is the parameter `format`. `KG_TO_API = 2.2` is a constant.
- Templates.RewriteKeepsPieces: assumes `format` never yields a comma, which holds for `.1f` output.
- `isdigit()` accepts ASCII digits only. Python also accepts Unicode digits such as "²", for which `int()` would raise during export. `strip()` removes exactly the characters `str.isspace()` accepts.
- CacheFill.ExtractExercise: `capacity` and `finishedCount` are taken to be numbers. `float(...)` on a non-numeric string at `routes/workouts.py:119` and `122-123` raises, and nothing catches it, so the request fails; the model has no such error path.
- HistoryCache.LoadHistoryCache: the cache file is taken to be a JSON object with a `trainings` map. Any other JSON value makes the request fail. A matching file without `trainings` makes it fail as soon as one fetch returns data (the `KeyError` at `routes/workouts.py:127`); with nothing to fetch, or when every fetch fails, such a file is returned or saved without error. The model has neither error path.
- A JSON `title` that is present but null is treated as absent.
- Template listing and pagination, the `code_map` assembly, the 401/400/500 responses of the template routes, and the POST of the rewritten template are not modelled. Neither is the `Exception` catch-all around a detail fetch in `get_templates`.
- The set builder of the export reads the counterweight piece unstripped, while planned volume and the weight rewrite strip it. Each operation is modelled as written.
- Other routes (workouts list, settings, login, muscle groups, handle types) are outside the core.
