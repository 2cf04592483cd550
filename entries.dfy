/** The stream both aggregations of routes/workouts.py walk: for every
    completed session in calendar order, the cached records of that session
    in stored order, with the records whose volume is not positive skipped
    (`if vol <= 0: continue`, lines 141-142 and 181-182). */
module EntryStream {
  import opened Records

  /** One record that survives the volume filter, tagged with the session's
      date and finish time. */
  datatype Entry = Entry(name: string, date: string, finishTime: string, volume: real, maxWeight: real)

  function EntryOf(w: CompletedRef, rec: ExerciseRecord): Entry {
    Entry(rec.name, w.date, w.finishTime, rec.volume, rec.maxWeight)
  }

  /** The inner loop over one session's records. */
  function SessionEntries(w: CompletedRef, recs: seq<ExerciseRecord>): seq<Entry> {
    if recs == [] then []
    else
      var rec := recs[|recs| - 1];
      SessionEntries(w, recs[..|recs| - 1]) + (if rec.volume > 0.0 then [EntryOf(w, rec)] else [])
  }

  /** The outer loop over the completed sessions. A session the cache does not
      hold contributes nothing (`.get(tid, [])`). */
  function Entries(completed: seq<CompletedRef>, trainings: Trainings): seq<Entry> {
    if completed == [] then []
    else
      var w := completed[|completed| - 1];
      Entries(completed[..|completed| - 1], trainings) + SessionEntries(w, RecordsOf(trainings, w.trainingId))
  }

  /** Appending one more record to a session's prefix. */
  lemma SessionEntriesStep(w: CompletedRef, recs: seq<ExerciseRecord>, j: nat)
    requires j < |recs|
    ensures SessionEntries(w, recs[..j + 1]) ==
            SessionEntries(w, recs[..j]) + (if recs[j].volume > 0.0 then [EntryOf(w, recs[j])] else [])
  {
    assert recs[..j + 1][..j] == recs[..j];
  }

  /** Appending one more session to a prefix of the completed list. */
  lemma EntriesStep(completed: seq<CompletedRef>, trainings: Trainings, i: nat)
    requires i < |completed|
    ensures Entries(completed[..i + 1], trainings) ==
            Entries(completed[..i], trainings) +
            SessionEntries(completed[i], RecordsOf(trainings, completed[i].trainingId))
  {
    assert completed[..i + 1][..i] == completed[..i];
  }

  /** An entry of a session is exactly a positive-volume record of it, with
      the session's date and finish time. */
  lemma {:induction false} SessionEntriesMembership(w: CompletedRef, recs: seq<ExerciseRecord>, e: Entry)
    ensures e in SessionEntries(w, recs) <==>
            exists k :: 0 <= k < |recs| && recs[k].volume > 0.0 && e == EntryOf(w, recs[k])
  {
    if recs != [] {
      var init := recs[..|recs| - 1];
      SessionEntriesMembership(w, init, e);
      if e in SessionEntries(w, init) {
        var k :| 0 <= k < |init| && init[k].volume > 0.0 && e == EntryOf(w, init[k]);
        assert recs[k] == init[k];
      }
      if exists k :: 0 <= k < |recs| && recs[k].volume > 0.0 && e == EntryOf(w, recs[k]) {
        var k :| 0 <= k < |recs| && recs[k].volume > 0.0 && e == EntryOf(w, recs[k]);
        if k < |recs| - 1 {
          assert init[k] == recs[k];
        }
      }
    }
  }

  /** The zero-volume exclusion: every entry of the stream has positive
      volume, so nothing either aggregation builds can see a record whose
      volume is zero or negative. */
  lemma {:induction false} EntriesPositive(completed: seq<CompletedRef>, trainings: Trainings)
    ensures forall e :: e in Entries(completed, trainings) ==> e.volume > 0.0
  {
    if completed != [] {
      var w := completed[|completed| - 1];
      EntriesPositive(completed[..|completed| - 1], trainings);
      forall e | e in SessionEntries(w, RecordsOf(trainings, w.trainingId)) ensures e.volume > 0.0 {
        SessionEntriesMembership(w, RecordsOf(trainings, w.trainingId), e);
      }
    }
  }

  /** An entry of the stream is exactly a positive-volume record of a
      completed session that the cache holds. */
  lemma {:induction false} EntriesMembership(completed: seq<CompletedRef>, trainings: Trainings, e: Entry)
    ensures e in Entries(completed, trainings) <==>
            exists i, k :: 0 <= i < |completed| && 0 <= k < |RecordsOf(trainings, completed[i].trainingId)| &&
                           RecordsOf(trainings, completed[i].trainingId)[k].volume > 0.0 &&
                           e == EntryOf(completed[i], RecordsOf(trainings, completed[i].trainingId)[k])
  {
    if completed != [] {
      var init := completed[..|completed| - 1];
      var w := completed[|completed| - 1];
      var recs := RecordsOf(trainings, w.trainingId);
      EntriesMembership(init, trainings, e);
      SessionEntriesMembership(w, recs, e);
      if e in Entries(init, trainings) {
        var i, k :| 0 <= i < |init| && 0 <= k < |RecordsOf(trainings, init[i].trainingId)| &&
                    RecordsOf(trainings, init[i].trainingId)[k].volume > 0.0 &&
                    e == EntryOf(init[i], RecordsOf(trainings, init[i].trainingId)[k]);
        assert completed[i] == init[i];
      }
      if e in SessionEntries(w, recs) {
        var k :| 0 <= k < |recs| && recs[k].volume > 0.0 && e == EntryOf(w, recs[k]);
        assert completed[|completed| - 1] == w;
      }
      if exists i, k :: 0 <= i < |completed| && 0 <= k < |RecordsOf(trainings, completed[i].trainingId)| &&
                        RecordsOf(trainings, completed[i].trainingId)[k].volume > 0.0 &&
                        e == EntryOf(completed[i], RecordsOf(trainings, completed[i].trainingId)[k]) {
        var i, k :| 0 <= i < |completed| && 0 <= k < |RecordsOf(trainings, completed[i].trainingId)| &&
                    RecordsOf(trainings, completed[i].trainingId)[k].volume > 0.0 &&
                    e == EntryOf(completed[i], RecordsOf(trainings, completed[i].trainingId)[k]);
        if i < |completed| - 1 {
          assert init[i] == completed[i];
        }
      }
    }
  }

  /** Every entry a session contributes carries that session's date and
      finish time. */
  lemma {:induction false} SessionEntriesTagged(w: CompletedRef, recs: seq<ExerciseRecord>)
    ensures forall e :: e in SessionEntries(w, recs) ==> e.date == w.date && e.finishTime == w.finishTime
  {
    forall e | e in SessionEntries(w, recs) ensures e.date == w.date && e.finishTime == w.finishTime {
      SessionEntriesMembership(w, recs, e);
    }
  }
}
