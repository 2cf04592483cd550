/** `_extract_completed` (routes/workouts.py:77-89): from the calendar's day
    records, the finished sessions that carry an id, in calendar order. */
module Completed {
  import opened Wrappers
  import opened Records

  /** One element of a day's `trainingPlanList`. `isFinish` is the value of
      `plan.get("isFinish")` (a missing key is any value other than 1);
      `trainingId` is `None` when the key is missing or null; `finishTime`
      is `plan.get("finishTime", "")`. */
  datatype PlanRecord = PlanRecord(isFinish: int, trainingId: Option<TrainingId>, finishTime: string)

  /** One calendar day: `day.get("date", "")` and `day.get("trainingPlanList") or []`. */
  datatype DayRecord = DayRecord(date: string, plans: seq<PlanRecord>)

  /** `plan.get("isFinish") == 1 and plan.get("trainingId")`: the id must be
      present and truthy, and the integer 0 is falsy. */
  predicate IsCompleted(p: PlanRecord) {
    p.isFinish == 1 && p.trainingId.Some? && p.trainingId.value != 0
  }

  function RefOf(d: DayRecord, p: PlanRecord): CompletedRef
    requires p.trainingId.Some?
  {
    CompletedRef(d.date, p.trainingId.value, p.finishTime)
  }

  /** The references contributed by `plans`, which belong to day `d`. */
  function CompletedPlans(d: DayRecord, plans: seq<PlanRecord>): seq<CompletedRef> {
    if plans == [] then []
    else
      var p := plans[|plans| - 1];
      CompletedPlans(d, plans[..|plans| - 1]) + (if IsCompleted(p) then [RefOf(d, p)] else [])
  }

  /** What `_extract_completed(days)` returns. */
  function CompletedOf(days: seq<DayRecord>): seq<CompletedRef> {
    if days == [] then []
    else CompletedOf(days[..|days| - 1]) + CompletedPlans(days[|days| - 1], days[|days| - 1].plans)
  }

  /** `_extract_completed`: two nested loops appending to `completed`. */
  method ExtractCompleted(days: seq<DayRecord>) returns (completed: seq<CompletedRef>)
    ensures completed == CompletedOf(days)
  {
    completed := [];
    for i := 0 to |days|
      invariant completed == CompletedOf(days[..i])
    {
      var day := days[i];
      ghost var before := completed;
      for j := 0 to |day.plans|
        invariant completed == before + CompletedPlans(day, day.plans[..j])
      {
        var plan := day.plans[j];
        assert day.plans[..j + 1][..j] == day.plans[..j];
        if plan.isFinish == 1 && plan.trainingId.Some? && plan.trainingId.value != 0 {
          completed := completed + [CompletedRef(day.date, plan.trainingId.value, plan.finishTime)];
        }
      }
      assert day.plans[..|day.plans|] == day.plans;
      assert days[..i + 1][..i] == days[..i];
    }
    assert days[..|days|] == days;
  }

  /** Extraction keeps the calendar order: the sessions of earlier days come
      first, and extracting two stretches of days separately and
      concatenating is the same as extracting them together. */
  lemma {:induction false} CompletedOfAppend(d1: seq<DayRecord>, d2: seq<DayRecord>)
    ensures CompletedOf(d1 + d2) == CompletedOf(d1) + CompletedOf(d2)
  {
    if d2 != [] {
      var last := d2[|d2| - 1];
      assert (d1 + d2)[..|d1 + d2| - 1] == d1 + d2[..|d2| - 1];
      CompletedOfAppend(d1, d2[..|d2| - 1]);
    } else {
      assert d1 + d2 == d1;
    }
  }

  lemma {:induction false} CompletedPlansMembership(d: DayRecord, plans: seq<PlanRecord>, c: CompletedRef)
    ensures c in CompletedPlans(d, plans) <==>
            exists j :: 0 <= j < |plans| && IsCompleted(plans[j]) && c == RefOf(d, plans[j])
  {
    if plans != [] {
      var init := plans[..|plans| - 1];
      CompletedPlansMembership(d, init, c);
      if c in CompletedPlans(d, init) {
        var j :| 0 <= j < |init| && IsCompleted(init[j]) && c == RefOf(d, init[j]);
        assert plans[j] == init[j];
      }
      if exists j :: 0 <= j < |plans| && IsCompleted(plans[j]) && c == RefOf(d, plans[j]) {
        var j :| 0 <= j < |plans| && IsCompleted(plans[j]) && c == RefOf(d, plans[j]);
        if j < |plans| - 1 {
          assert init[j] == plans[j];
        }
      }
    }
  }

  /** A reference is extracted exactly when some plan of some day is
      finished and has a truthy id; it carries that day's date and that
      plan's id and finish time. */
  lemma {:induction false} CompletedMembership(days: seq<DayRecord>, c: CompletedRef)
    ensures c in CompletedOf(days) <==>
            exists i, j :: 0 <= i < |days| && 0 <= j < |days[i].plans| &&
                           IsCompleted(days[i].plans[j]) && c == RefOf(days[i], days[i].plans[j])
  {
    if days != [] {
      var init := days[..|days| - 1];
      var last := days[|days| - 1];
      CompletedMembership(init, c);
      CompletedPlansMembership(last, last.plans, c);
      if c in CompletedOf(init) {
        var i, j :| 0 <= i < |init| && 0 <= j < |init[i].plans| &&
                    IsCompleted(init[i].plans[j]) && c == RefOf(init[i], init[i].plans[j]);
        assert days[i] == init[i];
      }
      if c in CompletedPlans(last, last.plans) {
        var j :| 0 <= j < |last.plans| && IsCompleted(last.plans[j]) && c == RefOf(last, last.plans[j]);
        assert days[|days| - 1] == last;
      }
      if exists i, j :: 0 <= i < |days| && 0 <= j < |days[i].plans| &&
                        IsCompleted(days[i].plans[j]) && c == RefOf(days[i], days[i].plans[j]) {
        var i, j :| 0 <= i < |days| && 0 <= j < |days[i].plans| &&
                    IsCompleted(days[i].plans[j]) && c == RefOf(days[i], days[i].plans[j]);
        if i < |days| - 1 {
          assert init[i] == days[i];
        }
      }
    }
  }
}
