/** `_build_daily_volumes` (routes/workouts.py:169-197): per-date volume
    totals, per-exercise per-date volumes, and each exercise's latest finish
    time, all over the positive-volume records of the completed sessions. */
module DailyVolumes {
  import opened Records
  import opened Text
  import opened EntryStream

  // ---------------------------------------------------------------------------
  // The three dictionaries, one step at a time

  /** `day_total` for one session: the sum of its positive volumes. */
  function Total(es: seq<Entry>): real {
    if es == [] then 0.0 else Total(es[..|es| - 1]) + es[|es| - 1].volume
  }

  /** `d[key] = d.get(key, 0) + v`. */
  function AddTo(m: map<string, real>, key: string, v: real): map<string, real> {
    m[key := (if key in m then m[key] else 0.0) + v]
  }

  /** `daily_vol_map` after the given sessions: a session adds its total to
      its date only when that total is positive. */
  function DailyOf(completed: seq<CompletedRef>, trainings: Trainings): map<string, real> {
    if completed == [] then map[]
    else
      var m := DailyOf(completed[..|completed| - 1], trainings);
      var w := completed[|completed| - 1];
      var total := Total(SessionEntries(w, RecordsOf(trainings, w.trainingId)));
      if total > 0.0 then AddTo(m, w.date, total) else m
  }

  /** One entry's update of `exercise_daily`. */
  function AddDaily(g: map<string, map<string, real>>, e: Entry): map<string, map<string, real>> {
    var inner := if e.name in g then g[e.name] else map[];
    g[e.name := AddTo(inner, e.date, e.volume)]
  }

  /** `exercise_daily` after the given entries. */
  function ExerciseDailyOf(es: seq<Entry>): map<string, map<string, real>> {
    if es == [] then map[] else AddDaily(ExerciseDailyOf(es[..|es| - 1]), es[|es| - 1])
  }

  /** One entry's update of `exercise_last_time`: a non-empty finish time
      replaces a missing one or a strictly smaller one. */
  function AddLastTime(m: map<string, string>, e: Entry): map<string, string> {
    if e.finishTime != "" && (e.name !in m || LexLess(m[e.name], e.finishTime)) then m[e.name := e.finishTime]
    else m
  }

  /** `exercise_last_time` after the given entries. */
  function LastTimeOf(es: seq<Entry>): map<string, string> {
    if es == [] then map[] else AddLastTime(LastTimeOf(es[..|es| - 1]), es[|es| - 1])
  }

  // ---------------------------------------------------------------------------
  // Reference sums

  /** The volume of the entries on one date. */
  function VolumeOn(es: seq<Entry>, d: string): real {
    if es == [] then 0.0
    else VolumeOn(es[..|es| - 1], d) + (if es[|es| - 1].date == d then es[|es| - 1].volume else 0.0)
  }

  /** The volume of one exercise's entries on one date. */
  function VolumeOf(es: seq<Entry>, name: string, d: string): real {
    if es == [] then 0.0
    else
      var e := es[|es| - 1];
      VolumeOf(es[..|es| - 1], name, d) + (if e.name == name && e.date == d then e.volume else 0.0)
  }

  predicate AllPositive(es: seq<Entry>) {
    forall e :: e in es ==> e.volume > 0.0
  }

  lemma {:induction false} VolumeOnAppend(a: seq<Entry>, b: seq<Entry>, d: string)
    ensures VolumeOn(a + b, d) == VolumeOn(a, d) + VolumeOn(b, d)
  {
    if b != [] {
      assert (a + b)[..|a + b| - 1] == a + b[..|b| - 1];
      VolumeOnAppend(a, b[..|b| - 1], d);
    } else {
      assert a + b == a;
    }
  }

  /** For a run of entries that all carry one date, the volume on a date is
      their total on that date and zero on any other. */
  lemma {:induction false} VolumeOnOneDate(es: seq<Entry>, date: string, d: string)
    requires forall e :: e in es ==> e.date == date
    ensures VolumeOn(es, d) == if date == d then Total(es) else 0.0
  {
    if es != [] {
      assert es[|es| - 1] in es;
      assert forall e :: e in es[..|es| - 1] ==> e in es;
      VolumeOnOneDate(es[..|es| - 1], date, d);
    }
  }

  /** With positive volumes, a date has positive volume exactly when some
      entry falls on it, and never negative volume. */
  lemma {:induction false} VolumeOnPositive(es: seq<Entry>, d: string)
    requires AllPositive(es)
    ensures VolumeOn(es, d) >= 0.0
    ensures VolumeOn(es, d) > 0.0 <==> exists e :: e in es && e.date == d
  {
    if es != [] {
      var init := es[..|es| - 1];
      var last := es[|es| - 1];
      assert es == init + [last];
      assert forall e :: e in init ==> e in es;
      VolumeOnPositive(init, d);
      assert last in es;
      if exists e :: e in es && e.date == d {
        var e :| e in es && e.date == d;
        if e != last {
          assert e in init;
        }
      }
    }
  }

  // ---------------------------------------------------------------------------
  // What the dictionaries hold

  /** `daily_volume`: a date is present exactly when the positive-volume
      records on it have positive total, and its value is that total over
      every session of the day. */
  lemma {:induction false} DailyOfIsSum(completed: seq<CompletedRef>, trainings: Trainings, d: string)
    ensures d in DailyOf(completed, trainings) <==> VolumeOn(Entries(completed, trainings), d) > 0.0
    ensures d in DailyOf(completed, trainings) ==> DailyOf(completed, trainings)[d] == VolumeOn(Entries(completed, trainings), d)
  {
    if completed != [] {
      var init := completed[..|completed| - 1];
      var w := completed[|completed| - 1];
      var s := SessionEntries(w, RecordsOf(trainings, w.trainingId));
      DailyOfIsSum(init, trainings, d);
      VolumeOnAppend(Entries(init, trainings), s, d);
      SessionEntriesTagged(w, RecordsOf(trainings, w.trainingId));
      VolumeOnOneDate(s, w.date, d);
      VolumeOnOneDate(s, w.date, w.date);
      EntriesPositive(completed, trainings);
      EntriesPositive(init, trainings);
      assert forall e :: e in s ==> e in Entries(completed, trainings);
      VolumeOnPositive(Entries(init, trainings), d);
      VolumeOnPositive(s, w.date);
    }
  }

  /** A date is in `daily_volume` exactly when some positive-volume record
      of a completed session falls on it. */
  lemma DailyDatesAreTrainingDays(completed: seq<CompletedRef>, trainings: Trainings, d: string)
    ensures d in DailyOf(completed, trainings) <==> exists e :: e in Entries(completed, trainings) && e.date == d
  {
    DailyOfIsSum(completed, trainings, d);
    EntriesPositive(completed, trainings);
    VolumeOnPositive(Entries(completed, trainings), d);
  }

  /** `exercise_daily` has a key exactly for the exercises that have an
      entry. */
  lemma {:induction false} ExerciseDailyNames(es: seq<Entry>, n: string)
    ensures n in ExerciseDailyOf(es) <==> exists e :: e in es && e.name == n
  {
    if es != [] {
      var init := es[..|es| - 1];
      var last := es[|es| - 1];
      assert es == init + [last];
      ExerciseDailyNames(init, n);
      if exists e :: e in init && e.name == n {
        var e :| e in init && e.name == n;
        assert e in es;
      }
      if exists e :: e in es && e.name == n {
        var e :| e in es && e.name == n;
        if e != last {
          assert e in init;
        }
      }
    }
  }

  /** `exercise_daily[name][date]` is the volume of that exercise on that
      date: never negative, and a date is present under the exercise exactly
      when that volume is positive. */
  lemma {:induction false} ExerciseDailyAt(es: seq<Entry>, n: string, d: string)
    requires AllPositive(es)
    ensures VolumeOf(es, n, d) >= 0.0
    ensures VolumeOf(es, n, d) > 0.0 ==> n in ExerciseDailyOf(es)
    ensures n in ExerciseDailyOf(es) ==> (d in ExerciseDailyOf(es)[n] <==> VolumeOf(es, n, d) > 0.0)
    ensures n in ExerciseDailyOf(es) && d in ExerciseDailyOf(es)[n] ==> ExerciseDailyOf(es)[n][d] == VolumeOf(es, n, d)
  {
    if es != [] {
      var init := es[..|es| - 1];
      var last := es[|es| - 1];
      assert last in es;
      assert AllPositive(init) by {
        forall e | e in init ensures e.volume > 0.0 {
          assert e in es;
        }
      }
      ExerciseDailyAt(init, n, d);
    }
  }

  /** `exercise_last_time[name]` is the greatest non-empty finish time among
      that exercise's entries, and is absent when there is none. */
  lemma {:induction false} LastTimeAt(es: seq<Entry>, n: string)
    ensures n in LastTimeOf(es) <==> exists e :: e in es && e.name == n && e.finishTime != ""
    ensures n in LastTimeOf(es) ==> exists e :: e in es && e.name == n && e.finishTime == LastTimeOf(es)[n]
    ensures n in LastTimeOf(es) ==>
              forall e :: e in es && e.name == n && e.finishTime != "" ==> LexLe(e.finishTime, LastTimeOf(es)[n])
  {
    if es != [] {
      var init := es[..|es| - 1];
      var last := es[|es| - 1];
      assert es == init + [last];
      assert forall e :: e in init ==> e in es;
      assert last in es;
      LastTimeAt(init, n);
      var m := LastTimeOf(init);
      if last.name == n && last.finishTime != "" && n in m {
        if LexLess(m[n], last.finishTime) {
          forall e | e in es && e.name == n && e.finishTime != ""
            ensures LexLe(e.finishTime, last.finishTime)
          {
            if e != last {
              assert e in init;
              LexLeTransitive(e.finishTime, m[n], last.finishTime);
            }
          }
        } else {
          NotLessIsGreaterOrEqual(m[n], last.finishTime);
        }
      }
      if exists e :: e in es && e.name == n && e.finishTime != "" {
        var e :| e in es && e.name == n && e.finishTime != "";
        if e != last {
          assert e in init;
        }
      }
    }
  }

  // ---------------------------------------------------------------------------
  // The loops

  lemma EntriesSnoc(before: seq<Entry>, w: CompletedRef, recs: seq<ExerciseRecord>, j: nat)
    requires j < |recs|
    ensures before + SessionEntries(w, recs[..j + 1]) ==
            if recs[j].volume > 0.0 then (before + SessionEntries(w, recs[..j])) + [EntryOf(w, recs[j])]
            else before + SessionEntries(w, recs[..j])
  {
    SessionEntriesStep(w, recs, j);
  }

  lemma FoldsSnoc(es: seq<Entry>, e: Entry)
    ensures ExerciseDailyOf(es + [e]) == AddDaily(ExerciseDailyOf(es), e)
    ensures LastTimeOf(es + [e]) == AddLastTime(LastTimeOf(es), e)
    ensures Total(es + [e]) == Total(es) + e.volume
  {
    assert (es + [e])[..|es|] == es;
  }

  lemma DailyOfStep(completed: seq<CompletedRef>, trainings: Trainings, i: nat)
    requires i < |completed|
    ensures var total := Total(SessionEntries(completed[i], RecordsOf(trainings, completed[i].trainingId)));
            DailyOf(completed[..i + 1], trainings) ==
              if total > 0.0 then AddTo(DailyOf(completed[..i], trainings), completed[i].date, total)
              else DailyOf(completed[..i], trainings)
  {
    assert completed[..i + 1][..i] == completed[..i];
  }

  /** One record of the inner loop: a positive-volume record moves all
      three accumulators, any other record none. */
  lemma SessionStep(before: seq<Entry>, w: CompletedRef, recs: seq<ExerciseRecord>, j: nat)
    requires j < |recs|
    ensures Total(SessionEntries(w, recs[..j + 1])) ==
            Total(SessionEntries(w, recs[..j])) + (if recs[j].volume > 0.0 then recs[j].volume else 0.0)
    ensures ExerciseDailyOf(before + SessionEntries(w, recs[..j + 1])) ==
            if recs[j].volume > 0.0 then AddDaily(ExerciseDailyOf(before + SessionEntries(w, recs[..j])), EntryOf(w, recs[j]))
            else ExerciseDailyOf(before + SessionEntries(w, recs[..j]))
    ensures LastTimeOf(before + SessionEntries(w, recs[..j + 1])) ==
            if recs[j].volume > 0.0 then AddLastTime(LastTimeOf(before + SessionEntries(w, recs[..j])), EntryOf(w, recs[j]))
            else LastTimeOf(before + SessionEntries(w, recs[..j]))
  {
    EntriesSnoc(before, w, recs, j);
    SessionEntriesStep(w, recs, j);
    if recs[j].volume > 0.0 {
      FoldsSnoc(before + SessionEntries(w, recs[..j]), EntryOf(w, recs[j]));
      FoldsSnoc(SessionEntries(w, recs[..j]), EntryOf(w, recs[j]));
    } else {
      assert SessionEntries(w, recs[..j + 1]) == SessionEntries(w, recs[..j]);
    }
  }

  /** The dates of `daily_volume`, in order. */
  function DatesOf(points: seq<DailyPoint>): (ds: seq<string>)
    ensures |ds| == |points| && forall i :: 0 <= i < |points| ==> ds[i] == points[i].date
  {
    seq(|points|, i requires 0 <= i < |points| => points[i].date)
  }

  /** The inner loop of `_build_daily_volumes` over one session's records,
      continuing the two per-exercise dictionaries built so far. */
  method AddSession(w: CompletedRef, exercises: seq<ExerciseRecord>, ghost before: seq<Entry>,
                    daily0: map<string, map<string, real>>, last0: map<string, string>)
      returns (dayTotal: real, exerciseDaily: map<string, map<string, real>>, exerciseLastTime: map<string, string>)
    requires daily0 == ExerciseDailyOf(before) && last0 == LastTimeOf(before)
    ensures dayTotal == Total(SessionEntries(w, exercises))
    ensures exerciseDaily == ExerciseDailyOf(before + SessionEntries(w, exercises))
    ensures exerciseLastTime == LastTimeOf(before + SessionEntries(w, exercises))
  {
    var date := w.date;
    var finishTime := w.finishTime;
    exerciseDaily, exerciseLastTime := daily0, last0;
    dayTotal := 0.0;
    assert before + SessionEntries(w, exercises[..0]) == before;
    for j := 0 to |exercises|
      invariant dayTotal == Total(SessionEntries(w, exercises[..j]))
      invariant exerciseDaily == ExerciseDailyOf(before + SessionEntries(w, exercises[..j]))
      invariant exerciseLastTime == LastTimeOf(before + SessionEntries(w, exercises[..j]))
    {
      var ex := exercises[j];
      SessionStep(before, w, exercises, j);
      var vol := ex.volume;
      if vol <= 0.0 {
        continue;
      }
      dayTotal := dayTotal + vol;
      var name := ex.name;
      var inner := if name in exerciseDaily then exerciseDaily[name] else map[];
      exerciseDaily := exerciseDaily[name := AddTo(inner, date, vol)];
      if finishTime != "" && (name !in exerciseLastTime || LexLess(exerciseLastTime[name], finishTime)) {
        exerciseLastTime := exerciseLastTime[name := finishTime];
      }
    }
    assert exercises[..|exercises|] == exercises;
  }

  /** `[{"date": d, "volume": v} for d, v in sorted(daily_vol_map.items())]`. */
  method SortedPoints(dailyVolMap: map<string, real>) returns (dailyVolume: seq<DailyPoint>)
    ensures StrictlyAscending(DatesOf(dailyVolume))
    ensures forall d :: d in DatesOf(dailyVolume) <==> d in dailyVolMap
    ensures forall i :: 0 <= i < |dailyVolume| ==>
              dailyVolume[i].date in dailyVolMap && dailyVolume[i].volume == dailyVolMap[dailyVolume[i].date]
  {
    var dates := SortedKeys(dailyVolMap.Keys);
    dailyVolume := [];
    for k := 0 to |dates|
      invariant |dailyVolume| == k
      invariant forall t :: 0 <= t < k ==> dailyVolume[t] == DailyPoint(dates[t], dailyVolMap[dates[t]])
    {
      dailyVolume := dailyVolume + [DailyPoint(dates[k], dailyVolMap[dates[k]])];
    }
    assert DatesOf(dailyVolume) == dates;
  }

  /** `_build_daily_volumes(completed, history_cache)`: `dailyVolume` lists
      the entries of `daily_vol_map` in ascending date order. */
  method BuildDailyVolumes(completed: seq<CompletedRef>, trainings: Trainings)
      returns (dailyVolume: seq<DailyPoint>, exerciseDaily: map<string, map<string, real>>,
               exerciseLastTime: map<string, string>)
    ensures StrictlyAscending(DatesOf(dailyVolume))
    ensures forall d :: d in DatesOf(dailyVolume) <==> d in DailyOf(completed, trainings)
    ensures forall i :: 0 <= i < |dailyVolume| ==>
              dailyVolume[i].volume == DailyOf(completed, trainings)[dailyVolume[i].date]
    ensures exerciseDaily == ExerciseDailyOf(Entries(completed, trainings))
    ensures exerciseLastTime == LastTimeOf(Entries(completed, trainings))
  {
    var dailyVolMap: map<string, real> := map[];
    exerciseDaily := map[];
    exerciseLastTime := map[];
    for i := 0 to |completed|
      invariant dailyVolMap == DailyOf(completed[..i], trainings)
      invariant exerciseDaily == ExerciseDailyOf(Entries(completed[..i], trainings))
      invariant exerciseLastTime == LastTimeOf(Entries(completed[..i], trainings))
    {
      var w := completed[i];
      var date := w.date;
      var dayTotal;
      dayTotal, exerciseDaily, exerciseLastTime :=
        AddSession(w, RecordsOf(trainings, w.trainingId), Entries(completed[..i], trainings),
                   exerciseDaily, exerciseLastTime);
      EntriesStep(completed, trainings, i);
      DailyOfStep(completed, trainings, i);
      if dayTotal > 0.0 {
        dailyVolMap := AddTo(dailyVolMap, date, dayTotal);
      }
    }
    assert completed[..|completed|] == completed;
    dailyVolume := SortedPoints(dailyVolMap);
  }
}
