/** `_build_exercise_results` (routes/workouts.py:133-166): group the
    positive-volume records by exercise name, sort each exercise's sessions
    by date, drop the exercises not trained since the cutoff date, and
    summarise the rest in ascending name order. */
module ExerciseResults {
  import opened Records
  import opened Text
  import opened EntryStream

  /** An `exercise_map` value: `{"count": ..., "sessions": [...]}`. */
  datatype Bucket = Bucket(count: nat, sessions: seq<Session>)

  /** The session dictionary appended for one entry. */
  function SessionOf(e: Entry): Session {
    Session(e.date, e.volume, e.maxWeight)
  }

  /** `exercise_map` after the first loop, one entry at a time: create the
      bucket on first sight of a name, then bump the count and append. */
  function Group(es: seq<Entry>): map<string, Bucket> {
    if es == [] then map[] else AddEntry(Group(es[..|es| - 1]), es[|es| - 1])
  }

  /** One step of the first loop. */
  function AddEntry(g: map<string, Bucket>, e: Entry): map<string, Bucket> {
    var b := if e.name in g then g[e.name] else Bucket(0, []);
    g[e.name := Bucket(b.count + 1, b.sessions + [SessionOf(e)])]
  }

  /** Reference definition: the sessions of one exercise, in stream order. */
  function SessionsNamed(es: seq<Entry>, name: string): seq<Session> {
    if es == [] then []
    else
      var e := es[|es| - 1];
      SessionsNamed(es[..|es| - 1], name) + (if e.name == name then [SessionOf(e)] else [])
  }

  lemma GroupSnoc(es: seq<Entry>, e: Entry)
    ensures Group(es + [e]) == AddEntry(Group(es), e)
  {
    assert (es + [e])[..|es|] == es;
  }

  /** The grouping is a filter per name: an exercise is a key exactly when it
      has a session, its sessions are that exercise's entries in stream
      order, and its count is their number. */
  lemma {:induction false} GroupIsFilter(es: seq<Entry>)
    ensures forall n :: n in Group(es) <==> SessionsNamed(es, n) != []
    ensures forall n :: n in Group(es) ==> Group(es)[n] == Bucket(|SessionsNamed(es, n)|, SessionsNamed(es, n))
  {
    if es != [] {
      GroupIsFilter(es[..|es| - 1]);
    }
  }

  lemma {:induction false} SessionsNamedMembership(es: seq<Entry>, name: string, s: Session)
    ensures s in SessionsNamed(es, name) <==> exists e :: e in es && e.name == name && s == SessionOf(e)
  {
    if es != [] {
      var init := es[..|es| - 1];
      var last := es[|es| - 1];
      SessionsNamedMembership(init, name, s);
      assert es == init + [last];
      if exists e :: e in es && e.name == name && s == SessionOf(e) {
        var e :| e in es && e.name == name && s == SessionOf(e);
        if e != last {
          assert e in init;
        }
      }
    }
  }

  /** Every bucket holds at least one session, and its count is its number of
      sessions. */
  predicate WellFormed(g: map<string, Bucket>) {
    forall n :: n in g ==> g[n].sessions != [] && g[n].count == |g[n].sessions|
  }

  lemma GroupWellFormed(es: seq<Entry>)
    ensures WellFormed(Group(es))
  {
    GroupIsFilter(es);
  }

  // ---------------------------------------------------------------------------
  // data["sessions"].sort(key=lambda s: s["date"])

  /** Inserting from the back, past every session with a strictly later
      date: a session lands after those with an equal date, as the stable
      sort of Python keeps them. */
  function InsertByDate(t: seq<Session>, x: Session): (r: seq<Session>)
    ensures |r| == |t| + 1
  {
    if t == [] then [x]
    else if LexLess(x.date, t[|t| - 1].date) then InsertByDate(t[..|t| - 1], x) + [t[|t| - 1]]
    else t + [x]
  }

  /** `list.sort(key=date)`, as an insertion sort. */
  function SortByDate(s: seq<Session>): (r: seq<Session>)
    ensures |r| == |s|
  {
    if s == [] then [] else InsertByDate(SortByDate(s[..|s| - 1]), s[|s| - 1])
  }

  predicate DateSorted(s: seq<Session>) {
    forall i, j :: 0 <= i < j < |s| ==> LexLe(s[i].date, s[j].date)
  }

  /** The sessions on one date, in order. */
  function OnDate(s: seq<Session>, d: string): seq<Session> {
    if s == [] then []
    else OnDate(s[..|s| - 1], d) + (if s[|s| - 1].date == d then [s[|s| - 1]] else [])
  }

  lemma {:induction false} InsertByDatePermutes(t: seq<Session>, x: Session)
    ensures multiset(InsertByDate(t, x)) == multiset(t) + multiset{x}
  {
    if t != [] && LexLess(x.date, t[|t| - 1].date) {
      InsertByDatePermutes(t[..|t| - 1], x);
      assert t == t[..|t| - 1] + [t[|t| - 1]];
    }
  }

  lemma {:induction false} InsertByDateSorted(t: seq<Session>, x: Session)
    requires DateSorted(t)
    ensures DateSorted(InsertByDate(t, x))
  {
    if t != [] {
      var init := t[..|t| - 1];
      var last := t[|t| - 1];
      var r := InsertByDate(t, x);
      if LexLess(x.date, last.date) {
        InsertByDateSorted(init, x);
        var ins := InsertByDate(init, x);
        InsertByDatePermutes(init, x);
        forall i | 0 <= i < |ins| ensures LexLe(ins[i].date, last.date) {
          assert ins[i] in multiset(ins);
          if ins[i] != x {
            assert ins[i] in multiset(init);
            var k :| 0 <= k < |init| && init[k] == ins[i];
            assert t[k] == init[k];
          }
        }
        assert r == ins + [last];
      } else {
        NotLessIsGreaterOrEqual(x.date, last.date);
        forall i, j | 0 <= i < j < |r| ensures LexLe(r[i].date, r[j].date) {
          if j == |t| {
            if i < |t| - 1 {
              LexLeTransitive(t[i].date, last.date, x.date);
            }
          }
        }
      }
    }
  }

  lemma {:induction false} OnDateAppend(a: seq<Session>, b: seq<Session>, d: string)
    ensures OnDate(a + b, d) == OnDate(a, d) + OnDate(b, d)
  {
    if b != [] {
      assert (a + b)[..|a + b| - 1] == a + b[..|b| - 1];
      OnDateAppend(a, b[..|b| - 1], d);
    } else {
      assert a + b == a;
    }
  }

  lemma {:induction false} InsertByDateOnDate(t: seq<Session>, x: Session, d: string)
    ensures OnDate(InsertByDate(t, x), d) == OnDate(t, d) + (if x.date == d then [x] else [])
  {
    if t == [] {
      assert OnDate([x], d) == OnDate([], d) + (if x.date == d then [x] else []);
    } else {
      var init := t[..|t| - 1];
      var last := t[|t| - 1];
      if LexLess(x.date, last.date) {
        InsertByDateOnDate(init, x, d);
        OnDateAppend(InsertByDate(init, x), [last], d);
        LexLessIrreflexive(x.date);
        assert OnDate([last], d) == OnDate([], d) + (if last.date == d then [last] else []);
      } else {
        OnDateAppend(t, [x], d);
        assert OnDate([x], d) == OnDate([], d) + (if x.date == d then [x] else []);
      }
    }
  }

  /** The sort orders the sessions by date, loses and invents none, and is
      stable: the sessions of any one date keep their stream order. */
  lemma {:induction false} SortByDateCorrect(s: seq<Session>)
    ensures DateSorted(SortByDate(s))
    ensures multiset(SortByDate(s)) == multiset(s)
    ensures forall d :: OnDate(SortByDate(s), d) == OnDate(s, d)
  {
    if s != [] {
      var init := s[..|s| - 1];
      var last := s[|s| - 1];
      SortByDateCorrect(init);
      InsertByDateSorted(SortByDate(init), last);
      InsertByDatePermutes(SortByDate(init), last);
      assert s == init + [last];
      forall d ensures OnDate(SortByDate(s), d) == OnDate(s, d) {
        InsertByDateOnDate(SortByDate(init), last, d);
      }
    }
  }

  // ---------------------------------------------------------------------------
  // One exercise's summary

  /** `history` keeps at most this many of the latest sessions. */
  const HistoryCap: nat := 20

  /** `sessions[-20:]`. */
  function Latest(all: seq<Session>): seq<Session> {
    if |all| <= HistoryCap then all else all[|all| - HistoryCap..]
  }

  /** `max(s.get("max_weight", 0) for s in sessions, default=0)`. */
  function MaxOf(s: seq<Session>): real {
    if s == [] then 0.0
    else if |s| == 1 then s[0].maxWeight
    else
      var m := MaxOf(s[..|s| - 1]);
      if s[|s| - 1].maxWeight > m then s[|s| - 1].maxWeight else m
  }

  /** The overall maximum bounds every session's weight and is one of them;
      with no session it is the default 0. */
  lemma {:induction false} MaxOfBounds(s: seq<Session>)
    ensures s == [] ==> MaxOf(s) == 0.0
    ensures forall k :: 0 <= k < |s| ==> s[k].maxWeight <= MaxOf(s)
    ensures s != [] ==> exists k :: 0 <= k < |s| && MaxOf(s) == s[k].maxWeight
  {
    if |s| > 1 {
      var init := s[..|s| - 1];
      MaxOfBounds(init);
      assert forall k :: 0 <= k < |init| ==> init[k] == s[k];
      if s[|s| - 1].maxWeight <= MaxOf(init) {
        var k :| 0 <= k < |init| && MaxOf(init) == init[k].maxWeight;
        assert s[k] == init[k];
      } else {
        assert MaxOf(s) == s[|s| - 1].maxWeight;
      }
    } else if |s| == 1 {
      assert MaxOf(s) == s[0].maxWeight;
    }
  }

  /** The dictionary appended to `result` for one exercise. */
  function SummaryOf(name: string, b: Bucket): ExerciseSummary {
    var all := SortByDate(b.sessions);
    ExerciseSummary(name, b.count, Latest(all), all, MaxOf(all))
  }

  /** The cutoff test: the latest session, after sorting, is not before
      `cutoff_date`. */
  predicate Recent(b: Bucket, cutoff: string) {
    var all := SortByDate(b.sessions);
    all != [] && !LexLess(all[|all| - 1].date, cutoff)
  }

  /** The 14-day cutoff keeps an exercise exactly when one of its sessions
      falls on or after the cutoff date. */
  lemma RecentIffSessionSince(b: Bucket, cutoff: string)
    ensures Recent(b, cutoff) <==> exists s :: s in b.sessions && LexLe(cutoff, s.date)
  {
    var all := SortByDate(b.sessions);
    SortByDateCorrect(b.sessions);
    if exists s :: s in b.sessions && LexLe(cutoff, s.date) {
      var s :| s in b.sessions && LexLe(cutoff, s.date);
      assert s in multiset(all);
      var k :| 0 <= k < |all| && all[k] == s;
      if k < |all| - 1 {
        LexLeTransitive(cutoff, s.date, all[|all| - 1].date);
      }
      NotLessIsGreaterOrEqual(all[|all| - 1].date, cutoff);
    }
    if Recent(b, cutoff) {
      var s := all[|all| - 1];
      assert s in multiset(b.sessions);
      NotLessIsGreaterOrEqual(s.date, cutoff);
    }
  }

  /** What one summary says about its bucket (whose sessions are, by
      `GroupIsFilter`, the exercise's positive-volume entries): the count is
      their number and `all_history` is all of them sorted by date. */
  lemma SummaryFacts(name: string, b: Bucket)
    requires b.count == |b.sessions|
    ensures SummaryOf(name, b).name == name
    ensures SummaryOf(name, b).count == |b.sessions|
    ensures multiset(SummaryOf(name, b).allHistory) == multiset(b.sessions)
    ensures DateSorted(SummaryOf(name, b).allHistory)
  {
    SortByDateCorrect(b.sessions);
  }

  /** `history` is the latest `min(20, count)` sessions of `all_history`. */
  lemma SummaryHistory(name: string, b: Bucket)
    ensures |SummaryOf(name, b).history| == (if |b.sessions| < HistoryCap then |b.sessions| else HistoryCap)
    ensures forall k :: 0 <= k < |SummaryOf(name, b).history| ==>
              SummaryOf(name, b).history[k] ==
              SummaryOf(name, b).allHistory[|b.sessions| - |SummaryOf(name, b).history| + k]
  {
    var all := SortByDate(b.sessions);
    var r := SummaryOf(name, b);
    assert r.history == Latest(all) && r.allHistory == all;
    LatestIsSuffix(all);
  }

  lemma LatestIsSuffix(all: seq<Session>)
    ensures |Latest(all)| == if |all| < HistoryCap then |all| else HistoryCap
    ensures forall k :: 0 <= k < |Latest(all)| ==> Latest(all)[k] == all[|all| - |Latest(all)| + k]
  {
  }

  /** `max_weight` ranges over every session of the exercise, not only the
      latest 20 shown in `history`. */
  lemma SummaryMaxCoversAll(name: string, b: Bucket)
    ensures forall s :: s in b.sessions ==> s.maxWeight <= SummaryOf(name, b).maxWeight
    ensures b.sessions != [] ==> exists s :: s in b.sessions && s.maxWeight == SummaryOf(name, b).maxWeight
  {
    var all := SortByDate(b.sessions);
    SortByDateCorrect(b.sessions);
    MaxOfBounds(all);
    forall s | s in b.sessions ensures s.maxWeight <= MaxOf(all) {
      assert s in multiset(all);
      var k :| 0 <= k < |all| && all[k] == s;
    }
    if b.sessions != [] {
      var k :| 0 <= k < |all| && MaxOf(all) == all[k].maxWeight;
      assert all[k] in multiset(b.sessions);
    }
  }

  // ---------------------------------------------------------------------------
  // The result list

  /** The second loop over `sorted(exercise_map.items())`, for the names
      visited so far. */
  function Summaries(g: map<string, Bucket>, cutoff: string, names: seq<string>): seq<ExerciseSummary>
    requires forall n :: n in names ==> n in g
  {
    if names == [] then []
    else
      var init := names[..|names| - 1];
      var n := names[|names| - 1];
      assert forall m :: m in init ==> m in names;
      Summaries(g, cutoff, init) + (if Recent(g[n], cutoff) then [SummaryOf(n, g[n])] else [])
  }

  /** The names of a result list, in order. */
  function NamesOf(r: seq<ExerciseSummary>): (ns: seq<string>)
    ensures |ns| == |r| && forall i :: 0 <= i < |r| ==> ns[i] == r[i].name
  {
    seq(|r|, i requires 0 <= i < |r| => r[i].name)
  }

  /** `r` summarises, in ascending name order, exactly the recent exercises
      among `names`. */
  predicate ResultOver(r: seq<ExerciseSummary>, g: map<string, Bucket>, cutoff: string, names: set<string>)
    requires names <= g.Keys
  {
    StrictlyAscending(NamesOf(r)) &&
    (forall i :: 0 <= i < |r| ==>
       r[i].name in names && Recent(g[r[i].name], cutoff) && r[i] == SummaryOf(r[i].name, g[r[i].name])) &&
    (forall n :: n in names && Recent(g[n], cutoff) ==> n in NamesOf(r))
  }

  /** What `_build_exercise_results` returns, independently of how it is
      computed: names strictly ascending, each element the summary of a
      recent exercise, and every recent exercise present. */
  predicate IsResultFor(r: seq<ExerciseSummary>, g: map<string, Bucket>, cutoff: string) {
    ResultOver(r, g, cutoff, g.Keys)
  }

  /** Every element the second loop appends is the summary of a recent
      exercise among the names visited. */
  lemma {:induction false} SummariesElements(g: map<string, Bucket>, cutoff: string, names: seq<string>)
    requires forall n :: n in names ==> n in g
    ensures forall i :: 0 <= i < |Summaries(g, cutoff, names)| ==>
              var s := Summaries(g, cutoff, names)[i];
              s.name in names && Recent(g[s.name], cutoff) && s == SummaryOf(s.name, g[s.name])
  {
    if names != [] {
      var init := names[..|names| - 1];
      assert forall m :: m in init ==> m in names;
      SummariesElements(g, cutoff, init);
    }
  }

  /** Every recent exercise among the names visited is appended. */
  lemma {:induction false} SummariesComplete(g: map<string, Bucket>, cutoff: string, names: seq<string>)
    requires forall n :: n in names ==> n in g
    ensures forall m :: m in names && Recent(g[m], cutoff) ==> m in NamesOf(Summaries(g, cutoff, names))
  {
    if names != [] {
      var init := names[..|names| - 1];
      var n := names[|names| - 1];
      assert forall m :: m in init ==> m in names;
      SummariesComplete(g, cutoff, init);
      var prev := Summaries(g, cutoff, init);
      var r := Summaries(g, cutoff, names);
      assert r == prev + (if Recent(g[n], cutoff) then [SummaryOf(n, g[n])] else []);
      forall m | m in names && Recent(g[m], cutoff) ensures m in NamesOf(r) {
        if m != n {
          var k :| 0 <= k < |names| && names[k] == m;
          assert init[k] == m;
          assert m in NamesOf(prev);
          var i :| 0 <= i < |prev| && NamesOf(prev)[i] == m;
          assert NamesOf(r)[i] == m;
        } else {
          assert NamesOf(r)[|r| - 1] == m;
        }
      }
    }
  }

  /** Visiting the names in ascending order yields the summaries in
      ascending name order. */
  lemma {:induction false} SummariesAscending(g: map<string, Bucket>, cutoff: string, names: seq<string>)
    requires forall n :: n in names ==> n in g
    requires StrictlyAscending(names)
    ensures StrictlyAscending(NamesOf(Summaries(g, cutoff, names)))
  {
    if names != [] {
      var init := names[..|names| - 1];
      var n := names[|names| - 1];
      assert forall m :: m in init ==> m in names;
      assert StrictlyAscending(init) by {
        forall i, j | 0 <= i < j < |init| ensures LexLess(init[i], init[j]) {
          assert init[i] == names[i] && init[j] == names[j];
        }
      }
      SummariesAscending(g, cutoff, init);
      SummariesElements(g, cutoff, init);
      var prev := Summaries(g, cutoff, init);
      var r := Summaries(g, cutoff, names);
      assert r == prev + (if Recent(g[n], cutoff) then [SummaryOf(n, g[n])] else []);
      forall i, j | 0 <= i < j < |r| ensures LexLess(NamesOf(r)[i], NamesOf(r)[j]) {
        if j < |prev| {
          assert NamesOf(prev)[i] == r[i].name && NamesOf(prev)[j] == r[j].name;
        } else {
          assert r[i] == prev[i];
          var k :| 0 <= k < |init| && init[k] == prev[i].name;
          assert names[k] == init[k];
        }
      }
    }
  }

  /** The second loop, over the names of `keys` in ascending order, builds a
      result list that meets `ResultOver` for those keys. */
  lemma SummariesCorrect(g: map<string, Bucket>, cutoff: string, names: seq<string>, keys: set<string>)
    requires forall n :: n in names <==> n in keys
    requires keys <= g.Keys
    requires StrictlyAscending(names)
    ensures ResultOver(Summaries(g, cutoff, names), g, cutoff, keys)
  {
    SummariesElements(g, cutoff, names);
    SummariesComplete(g, cutoff, names);
    SummariesAscending(g, cutoff, names);
  }

  /** The result is determined by the grouping and the cutoff alone: two
      lists meeting `IsResultFor` are equal. */
  lemma ResultUnique(r1: seq<ExerciseSummary>, r2: seq<ExerciseSummary>, g: map<string, Bucket>, cutoff: string)
    requires IsResultFor(r1, g, cutoff) && IsResultFor(r2, g, cutoff)
    ensures r1 == r2
  {
    var n1 := NamesOf(r1);
    var n2 := NamesOf(r2);
    forall n ensures n in n1 <==> n in n2 {
      if n in n1 {
        var i :| 0 <= i < |r1| && n1[i] == n;
        assert n in g && Recent(g[n], cutoff);
      }
      if n in n2 {
        var j :| 0 <= j < |r2| && n2[j] == n;
        assert n in g && Recent(g[n], cutoff);
      }
    }
    AscendingUnique(n1, n2);
    forall i | 0 <= i < |r1| ensures r1[i] == r2[i] {
      assert n1[i] == n2[i];
    }
  }

  /** One record of the first loop: a positive-volume record updates its
      exercise's bucket, any other leaves the map as it was. */
  lemma GroupStep(before: seq<Entry>, w: CompletedRef, recs: seq<ExerciseRecord>, j: nat)
    requires j < |recs|
    ensures Group(before + SessionEntries(w, recs[..j + 1])) ==
              if recs[j].volume > 0.0 then AddEntry(Group(before + SessionEntries(w, recs[..j])), EntryOf(w, recs[j]))
              else Group(before + SessionEntries(w, recs[..j]))
  {
    SessionEntriesStep(w, recs, j);
    if recs[j].volume > 0.0 {
      GroupSnoc(before + SessionEntries(w, recs[..j]), EntryOf(w, recs[j]));
      assert before + SessionEntries(w, recs[..j + 1]) ==
             (before + SessionEntries(w, recs[..j])) + [EntryOf(w, recs[j])];
    } else {
      assert SessionEntries(w, recs[..j + 1]) == SessionEntries(w, recs[..j]);
    }
  }

  /** One name of the second loop. */
  lemma SummariesStep(g: map<string, Bucket>, cutoff: string, names: seq<string>, k: nat)
    requires forall n :: n in names ==> n in g
    requires k < |names|
    ensures forall n :: n in names[..k + 1] ==> n in g
    ensures Summaries(g, cutoff, names[..k + 1]) ==
            Summaries(g, cutoff, names[..k]) +
            (if Recent(g[names[k]], cutoff) then [SummaryOf(names[k], g[names[k]])] else [])
  {
    assert names[..k + 1][..k] == names[..k];
    assert forall n :: n in names[..k + 1] ==> n in names;
  }

  /** The inner loop of `_build_exercise_results` over one session's
      records: each positive-volume record adds a session to its exercise's
      bucket. */
  method AddSessionRecords(exerciseMap0: map<string, Bucket>, w: CompletedRef, exercises: seq<ExerciseRecord>,
                           ghost before: seq<Entry>)
      returns (exerciseMap: map<string, Bucket>)
    requires exerciseMap0 == Group(before)
    ensures exerciseMap == Group(before + SessionEntries(w, exercises))
  {
    exerciseMap := exerciseMap0;
    assert before + SessionEntries(w, exercises[..0]) == before;
    for j := 0 to |exercises|
      invariant exerciseMap == Group(before + SessionEntries(w, exercises[..j]))
    {
      var ex := exercises[j];
      GroupStep(before, w, exercises, j);
      if ex.volume <= 0.0 {
        continue;
      }
      var name := ex.name;
      var b := if name in exerciseMap then exerciseMap[name] else Bucket(0, []);
      exerciseMap := exerciseMap[name := Bucket(b.count + 1, b.sessions + [Session(w.date, ex.volume, ex.maxWeight)])];
    }
    assert exercises[..|exercises|] == exercises;
  }

  /** `_build_exercise_results(completed, history_cache, cutoff_date)`. */
  method BuildExerciseResults(completed: seq<CompletedRef>, trainings: Trainings, cutoff: string)
      returns (result: seq<ExerciseSummary>)
    ensures IsResultFor(result, Group(Entries(completed, trainings)), cutoff)
  {
    var exerciseMap: map<string, Bucket> := map[];
    for i := 0 to |completed|
      invariant exerciseMap == Group(Entries(completed[..i], trainings))
    {
      var w := completed[i];
      var exercises := RecordsOf(trainings, w.trainingId);
      exerciseMap := AddSessionRecords(exerciseMap, w, exercises, Entries(completed[..i], trainings));
      EntriesStep(completed, trainings, i);
    }
    assert completed[..|completed|] == completed;
    GroupWellFormed(Entries(completed, trainings));

    var names := SortedKeys(exerciseMap.Keys);
    result := [];
    for k := 0 to |names|
      invariant result == Summaries(exerciseMap, cutoff, names[..k])
    {
      var name := names[k];
      SummariesStep(exerciseMap, cutoff, names, k);
      var data := exerciseMap[name];
      var sessions := SortByDate(data.sessions);
      if LexLess(sessions[|sessions| - 1].date, cutoff) {
        continue;
      }
      result := result + [ExerciseSummary(name, data.count, Latest(sessions), sessions, MaxOf(sessions))];
    }
    assert names[..|names|] == names;
    SummariesCorrect(exerciseMap, cutoff, names, exerciseMap.Keys);
  }
}
