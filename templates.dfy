/** The comma-separated set columns of a workout template, as
    routes/workouts.py reads them in three places: the planned-volume sum of
    `get_templates`, the set builder of `export_templates`, and the kg to
    internal-unit weight rewrite of `save_workout_template`. All three walk
    the columns with index alignment: set `i` is the `i`-th piece of every
    column, and a column too short for `i` reads as "". */
module Templates {
  import opened Wrappers
  import opened Text

  /** One entry of a template's `actionLibraryList`. Each CSV column holds
      `str(value or "")`, so a missing, null or empty column is "". `title` is
      None when the key is absent. */
  datatype TemplateExercise = TemplateExercise(
    title: Option<string>,
    name: string,
    setsAndReps: string,
    weights: string,
    counterweight2: string,
    counterweight: string,
    sportMode: string,
    breakTime2: string,
    breakTime: string,
    countType: string,
    leftRight: string)

  /** Python's `float(s)`: None where it raises ValueError. */
  type FloatParser = string -> Option<real>

  function RepsColumn(ex: TemplateExercise): seq<string> {
    Split(ex.setsAndReps)
  }

  function WeightsColumn(ex: TemplateExercise): seq<string> {
    Split(ex.weights)
  }

  /** `counterweight2 or counterweight`. */
  function CountersColumn(ex: TemplateExercise): seq<string> {
    Split(Or(ex.counterweight2, ex.counterweight))
  }

  /** `counter and counter != "0"`: the set is a preset/RM set whose
      counterweight is the real load. */
  predicate IsCounterweighted(counter: string) {
    counter != "" && counter != "0"
  }

  /** `ex.get("title", dflt)`. */
  function TitleOr(ex: TemplateExercise, dflt: string): string {
    if ex.title.Some? then ex.title.value else dflt
  }

  /** `lst[i].strip() if i < len(lst) else ""`. */
  function StrippedAt(parts: seq<string>, i: nat): string {
    if i < |parts| then Strip(parts[i]) else ""
  }

  /** The weight column at `i`: 0 when the column is too short or blank,
      otherwise `float(...)`, which may fail. */
  function WeightAt(weights: seq<string>, i: nat, parse: FloatParser): Option<real> {
    if i < |weights| && weights[i] != "" then parse(weights[i]) else Some(0.0)
  }

  // ---------------------------------------------------------------------------
  // Planned volume (get_templates)

  const DualHandle: string := "Dual Handle"

  /** `handle_types.get(title, "Dual Handle") == "Dual Handle"`: an exercise
      nobody has mapped counts as dual-handle. */
  predicate IsDual(ex: TemplateExercise, handleTypes: map<string, string>) {
    var key := TitleOr(ex, "");
    (if key in handleTypes then handleTypes[key] else DualHandle) == DualHandle
  }

  /** What set `i` adds to the planned volume; 0 when the set is skipped
      (blank reps, a counterweight, or a value `float` rejects). */
  function SetPlanned(ex: TemplateExercise, i: nat, handleTypes: map<string, string>, parse: FloatParser): real
    requires i < |RepsColumn(ex)|
  {
    var reps := RepsColumn(ex)[i];
    if reps == "" || IsCounterweighted(StrippedAt(CountersColumn(ex), i)) then 0.0
    else
      match (parse(reps), WeightAt(WeightsColumn(ex), i, parse))
      case (Some(repVal), Some(wt)) => repVal * (if IsDual(ex, handleTypes) then wt * 2.0 else wt)
      case _ => 0.0
  }

  /** The planned volume of the first `n` sets of an exercise. */
  function PlannedPrefix(ex: TemplateExercise, handleTypes: map<string, string>, parse: FloatParser, n: nat): real
    requires n <= |RepsColumn(ex)|
  {
    if n == 0 then 0.0
    else PlannedPrefix(ex, handleTypes, parse, n - 1) + SetPlanned(ex, n - 1, handleTypes, parse)
  }

  function ExercisePlanned(ex: TemplateExercise, handleTypes: map<string, string>, parse: FloatParser): real {
    PlannedPrefix(ex, handleTypes, parse, |RepsColumn(ex)|)
  }

  /** The planned volume of a whole template: the sum over its exercises. */
  function TemplatePlanned(exs: seq<TemplateExercise>, handleTypes: map<string, string>, parse: FloatParser): real {
    if exs == [] then 0.0
    else TemplatePlanned(exs[..|exs| - 1], handleTypes, parse) + ExercisePlanned(exs[|exs| - 1], handleTypes, parse)
  }

  /** The `names` list of a template summary. */
  function NamesOf(exs: seq<TemplateExercise>): (r: seq<string>)
    ensures |r| == |exs|
    ensures forall k :: 0 <= k < |exs| ==> r[k] == TitleOr(exs[k], "Unknown")
  {
    if exs == [] then [] else NamesOf(exs[..|exs| - 1]) + [TitleOr(exs[|exs| - 1], "Unknown")]
  }

  /** The body of `_fetch_template_detail` once the detail has arrived: the
      exercise names and the planned volume, summed set by set. */
  method TemplateSummary(exercises: seq<TemplateExercise>, handleTypes: map<string, string>, parse: FloatParser)
    returns (names: seq<string>, planned: real)
    ensures |names| == |exercises|
    ensures forall k :: 0 <= k < |exercises| ==> names[k] == TitleOr(exercises[k], "Unknown")
    ensures planned == TemplatePlanned(exercises, handleTypes, parse)
  {
    names := NamesOf(exercises);
    planned := 0.0;
    for e := 0 to |exercises|
      invariant planned == TemplatePlanned(exercises[..e], handleTypes, parse)
    {
      planned := AddExercisePlanned(exercises[e], handleTypes, parse, planned);
      assert exercises[..e + 1][..e] == exercises[..e];
    }
    assert exercises[..|exercises|] == exercises;
  }

  /** The inner loop over one exercise's sets, adding to `planned_vol`. */
  method AddExercisePlanned(ex: TemplateExercise, handleTypes: map<string, string>, parse: FloatParser, before: real)
    returns (planned: real)
    ensures planned == before + ExercisePlanned(ex, handleTypes, parse)
  {
    var repsList := RepsColumn(ex);
    planned := before;
    for i := 0 to |repsList|
      invariant planned == before + PlannedPrefix(ex, handleTypes, parse, i)
    {
      var v := SetContribution(ex, handleTypes, parse, i);
      planned := planned + v;
    }
  }

  /** The body of the set loop for set `i`: what it adds to `planned_vol`,
      0 on each `continue` and on a ValueError. */
  method SetContribution(ex: TemplateExercise, handleTypes: map<string, string>, parse: FloatParser, i: nat)
    returns (v: real)
    requires i < |RepsColumn(ex)|
    ensures v == SetPlanned(ex, i, handleTypes, parse)
  {
    var repsList := RepsColumn(ex);
    var weightsList := WeightsColumn(ex);
    var countersList := CountersColumn(ex);
    if repsList[i] == "" {
      return 0.0;
    }
    var counter := StrippedAt(countersList, i);
    if counter != "" && counter != "0" {
      return 0.0;
    }
    var repVal := parse(repsList[i]);
    var wt := if i < |weightsList| && weightsList[i] != "" then parse(weightsList[i]) else Some(0.0);
    if repVal.None? || wt.None? {
      return 0.0;
    }
    var isDual := (if TitleOr(ex, "") in handleTypes then handleTypes[TitleOr(ex, "")] else DualHandle) == DualHandle;
    var totalWt := if isDual then wt.value * 2.0 else wt.value;
    v := repVal.value * totalWt;
  }

  /** Planned volume is additive over the exercises of a template. */
  lemma {:induction false} TemplatePlannedAppend(a: seq<TemplateExercise>, b: seq<TemplateExercise>,
                                                 handleTypes: map<string, string>, parse: FloatParser)
    ensures TemplatePlanned(a + b, handleTypes, parse) ==
            TemplatePlanned(a, handleTypes, parse) + TemplatePlanned(b, handleTypes, parse)
  {
    if b != [] {
      assert (a + b)[..|a + b| - 1] == a + b[..|b| - 1];
      TemplatePlannedAppend(a, b[..|b| - 1], handleTypes, parse);
    } else {
      assert a + b == a;
    }
  }

  /** A set with blank reps or a nonzero counterweight adds nothing; a set
      that adds something has reps, no counterweight, and parseable numbers. */
  lemma SetPlannedSkips(ex: TemplateExercise, i: nat, handleTypes: map<string, string>, parse: FloatParser)
    requires i < |RepsColumn(ex)|
    ensures SetPlanned(ex, i, handleTypes, parse) != 0.0 ==>
              RepsColumn(ex)[i] != "" && !IsCounterweighted(StrippedAt(CountersColumn(ex), i)) &&
              parse(RepsColumn(ex)[i]).Some? && WeightAt(WeightsColumn(ex), i, parse).Some?
  {
  }

  /** An exercise whose every set is blank or counterweighted plans nothing,
      whatever its weights say. */
  lemma {:induction false} CounterweightedPlansNothing(ex: TemplateExercise, handleTypes: map<string, string>, parse: FloatParser)
    requires forall i :: 0 <= i < |RepsColumn(ex)| ==>
               RepsColumn(ex)[i] == "" || IsCounterweighted(StrippedAt(CountersColumn(ex), i))
    ensures ExercisePlanned(ex, handleTypes, parse) == 0.0
  {
    PrefixNothing(ex, handleTypes, parse, |RepsColumn(ex)|);
  }

  lemma {:induction false} PrefixNothing(ex: TemplateExercise, handleTypes: map<string, string>, parse: FloatParser, n: nat)
    requires n <= |RepsColumn(ex)|
    requires forall i :: 0 <= i < n ==>
               RepsColumn(ex)[i] == "" || IsCounterweighted(StrippedAt(CountersColumn(ex), i))
    ensures PlannedPrefix(ex, handleTypes, parse, n) == 0.0
  {
    if n > 0 {
      PrefixNothing(ex, handleTypes, parse, n - 1);
    }
  }

  /** The dual-handle rule: the same exercise planned as dual-handle (which
      is what an unmapped title means) weighs exactly twice what it weighs
      when mapped to any other handle type. */
  lemma DualIsTwiceSingle(ex: TemplateExercise, handleTypes: map<string, string>, parse: FloatParser, other: string)
    requires TitleOr(ex, "") !in handleTypes
    requires other != DualHandle
    ensures ExercisePlanned(ex, handleTypes, parse) ==
            2.0 * ExercisePlanned(ex, handleTypes[TitleOr(ex, "") := other], parse)
  {
    PrefixTwice(ex, handleTypes, handleTypes[TitleOr(ex, "") := other], parse, |RepsColumn(ex)|);
  }

  lemma {:induction false} PrefixTwice(ex: TemplateExercise, dual: map<string, string>, single: map<string, string>,
                                       parse: FloatParser, n: nat)
    requires n <= |RepsColumn(ex)|
    requires IsDual(ex, dual) && !IsDual(ex, single)
    ensures PlannedPrefix(ex, dual, parse, n) == 2.0 * PlannedPrefix(ex, single, parse, n)
  {
    if n > 0 {
      PrefixTwice(ex, dual, single, parse, n - 1);
      SetTwice(ex, n - 1, dual, single, parse);
    }
  }

  lemma SetTwice(ex: TemplateExercise, i: nat, dual: map<string, string>, single: map<string, string>, parse: FloatParser)
    requires i < |RepsColumn(ex)|
    requires IsDual(ex, dual) && !IsDual(ex, single)
    ensures SetPlanned(ex, i, dual, parse) == 2.0 * SetPlanned(ex, i, single, parse)
  {
    var reps := RepsColumn(ex)[i];
    if reps != "" && !IsCounterweighted(StrippedAt(CountersColumn(ex), i)) {
      var r := parse(reps);
      var w := WeightAt(WeightsColumn(ex), i, parse);
      if r.Some? && w.Some? {
        assert r.value * (w.value * 2.0) == 2.0 * (r.value * w.value);
      }
    }
  }

  // ---------------------------------------------------------------------------
  // Export (export_templates)

  /** The `reps` of an exported set: `"<reps>s"` for a timed set, an integer
      when the column is all digits, the column text otherwise. */
  datatype Reps = Timed(text: string) | Count(n: nat) | Raw(text: string)

  datatype Side = Left | Right

  datatype ExportSet = ExportSet(
    number: nat,
    reps: Reps,
    weightPerHandle: real,
    totalWeight: real,
    mode: string,
    restSeconds: nat,
    counterweightRm: Option<string>,
    side: Option<Side>)

  datatype ExportedExercise = ExportedExercise(name: string, sets: seq<ExportSet>)

  /** One template as the API lists it: `name` is None when the key is absent. */
  datatype TemplateRef = TemplateRef(name: Option<string>, code: string)

  datatype ExportedTemplate = ExportedTemplate(name: string, exercises: seq<ExportedExercise>)

  /** `modeNames.get(code, code or "Standard")`. */
  function ModeName(code: string): (r: string)
    ensures r != ""
    ensures r in {"Standard", "Eccentric", "Chain"} || r == code
  {
    if code == "1" then "Standard"
    else if code == "2" || code == "3" then "Eccentric"
    else if code == "4" then "Chain"
    else if code == "" then "Standard"
    else code
  }

  /** The `reps` of a set: `"<rep>s"` for a timed set, an integer when the
      piece is all (ASCII) digits, and the piece itself otherwise. */
  function RepsOf(rep: string, isTime: bool): (r: Reps)
    ensures r.Timed? <==> isTime
    ensures r.Timed? ==> r.text == rep + "s"
    ensures r.Count? <==> !isTime && IsDigits(rep)
    ensures r.Count? ==> IsDigits(rep) && r.n == DigitsValue(rep)
    ensures r.Raw? ==> r.text == rep && !IsDigits(rep)
  {
    if isTime then Timed(rep + "s")
    else if IsDigits(rep) then Count(DigitsValue(rep))
    else Raw(rep)
  }

  /** `int(rest_s) if rest_s and rest_s.isdigit() else 0`. */
  function RestSeconds(rest: string): (r: nat)
    ensures IsDigits(rest) ==> r == DigitsValue(rest)
    ensures !IsDigits(rest) ==> r == 0
  {
    if IsDigits(rest) then DigitsValue(rest) else 0
  }

  /** `"1"` is the left side and `"2"` the right; any other code leaves
      `side` out. */
  function SideOf(code: string): (r: Option<Side>)
    ensures r == Some(Left) <==> code == "1"
    ensures r == Some(Right) <==> code == "2"
  {
    if code == "1" then Some(Left) else if code == "2" then Some(Right) else None
  }

  /** `title or name or "Unknown"`. */
  function ExportName(ex: TemplateExercise): (r: string)
    ensures r != ""
    ensures TitleOr(ex, "") != "" ==> r == TitleOr(ex, "")
    ensures TitleOr(ex, "") == "" && ex.name != "" ==> r == ex.name
    ensures TitleOr(ex, "") == "" && ex.name == "" ==> r == "Unknown"
  {
    Or(Or(TitleOr(ex, ""), ex.name), "Unknown")
  }

  /** The seven columns of one exercise, split once before its set loop. */
  datatype SetColumns = SetColumns(
    reps: seq<string>,
    weights: seq<string>,
    modes: seq<string>,
    rest: seq<string>,
    counters: seq<string>,
    countTypes: seq<string>,
    leftRight: seq<string>)

  function ColumnsOf(ex: TemplateExercise): SetColumns {
    SetColumns(RepsColumn(ex), WeightsColumn(ex), Split(ex.sportMode), Split(Or(ex.breakTime2, ex.breakTime)),
               CountersColumn(ex), Split(ex.countType), Split(ex.leftRight))
  }

  /** The column positions among the first `n` that the set loop builds a
      set for: the non-blank reps pieces, in order. None once a non-blank
      piece's weight does not parse (the ValueError that aborts the export). */
  function BuiltPositions(cols: SetColumns, parse: FloatParser, n: nat): Option<seq<nat>>
    requires n <= |cols.reps|
  {
    if n == 0 then Some([])
    else
      match BuiltPositions(cols, parse, n - 1)
      case None => None
      case Some(ps) =>
        if cols.reps[n - 1] == "" then Some(ps)
        else if WeightAt(cols.weights, n - 1, parse).None? then None
        else Some(ps + [n - 1])
  }

  /** The set dictionary for column position `i` with reps piece `rep` and
      parsed weight `w`; the counterweight piece is taken unstripped. */
  function SetRecord(cols: SetColumns, i: nat, rep: string, w: real): ExportSet {
    var counter := At(cols.counters, i);
    ExportSet(
      i + 1,
      RepsOf(rep, At(cols.countTypes, i) == "2"),
      w,
      if w != 0.0 then w * 2.0 else 0.0,
      ModeName(At(cols.modes, i)),
      RestSeconds(At(cols.rest, i)),
      if IsCounterweighted(counter) then Some(counter) else None,
      SideOf(At(cols.leftRight, i)))
  }

  /** The set built at position `i` from its own reps piece and weight. */
  function RecordAt(cols: SetColumns, parse: FloatParser, i: nat): ExportSet {
    var w := WeightAt(cols.weights, i, parse);
    SetRecord(cols, i, At(cols.reps, i), if w.Some? then w.value else 0.0)
  }

  function RecordsAt(cols: SetColumns, parse: FloatParser, ps: seq<nat>): seq<ExportSet> {
    seq(|ps|, k requires 0 <= k < |ps| => RecordAt(cols, parse, ps[k]))
  }

  function ExportOf(ex: TemplateExercise, parse: FloatParser): Option<ExportedExercise> {
    var cols := ColumnsOf(ex);
    match BuiltPositions(cols, parse, |cols.reps|)
    case None => None
    case Some(ps) => Some(ExportedExercise(ExportName(ex), RecordsAt(cols, parse, ps)))
  }

  /** The export of every exercise of a list, or None when one fails. */
  function ExportAll(exs: seq<TemplateExercise>, parse: FloatParser): Option<seq<ExportedExercise>> {
    if exs == [] then Some([])
    else
      match (ExportAll(exs[..|exs| - 1], parse), ExportOf(exs[|exs| - 1], parse))
      case (Some(done), Some(x)) => Some(done + [x])
      case _ => None
  }

  /** The exercise list of one template: the fetched detail for its code, or
      nothing when the detail fetch failed. Only templates with a non-empty
      code are fetched, so the source's map never holds the key ""; callers
      of this model may pass any map, and "" is then looked up like any
      other code. */
  function DetailOf(details: map<string, seq<TemplateExercise>>, code: string): seq<TemplateExercise> {
    if code in details then details[code] else []
  }

  function TemplatesExport(templates: seq<TemplateRef>, details: map<string, seq<TemplateExercise>>,
                           parse: FloatParser): Option<seq<ExportedTemplate>> {
    if templates == [] then Some([])
    else
      var t := templates[|templates| - 1];
      match (TemplatesExport(templates[..|templates| - 1], details, parse), ExportAll(DetailOf(details, t.code), parse))
      case (Some(done), Some(exs)) =>
        Some(done + [ExportedTemplate(if t.name.Some? then t.name.value else "Untitled", exs)])
      case _ => None
  }

  /** The set builder of one exercise. None stands for the ValueError a
      non-numeric weight raises, which aborts the whole export. */
  method ExportExercise(ex: TemplateExercise, parse: FloatParser) returns (r: Option<ExportedExercise>)
    ensures r == ExportOf(ex, parse)
  {
    var cols := ColumnsOf(ex);
    var sets: seq<ExportSet> := [];
    ghost var ps: seq<nat> := [];
    for i := 0 to |cols.reps|
      invariant BuiltPositions(cols, parse, i) == Some(ps)
      invariant sets == RecordsAt(cols, parse, ps)
    {
      var rep := cols.reps[i];
      if rep == "" {
        continue;
      }
      var w := WeightAt(cols.weights, i, parse);
      if w.None? {
        NoRecovery(cols, parse, i + 1, |cols.reps|);
        return None;
      }
      assert SetRecord(cols, i, rep, w.value) == RecordAt(cols, parse, i);
      RecordsAtSnoc(cols, parse, ps, i);
      sets := sets + [SetRecord(cols, i, rep, w.value)];
      ps := ps + [i];
    }
    r := Some(ExportedExercise(ExportName(ex), sets));
  }

  /** Building one more position appends its set. */
  lemma RecordsAtSnoc(cols: SetColumns, parse: FloatParser, ps: seq<nat>, i: nat)
    ensures RecordsAt(cols, parse, ps + [i]) == RecordsAt(cols, parse, ps) + [RecordAt(cols, parse, i)]
  {
  }

  /** Once a prefix fails, every longer prefix fails. */
  lemma {:induction false} NoRecovery(cols: SetColumns, parse: FloatParser, m: nat, n: nat)
    requires m <= n <= |cols.reps|
    requires BuiltPositions(cols, parse, m) == None
    ensures BuiltPositions(cols, parse, n) == None
  {
    if m < n {
      NoRecovery(cols, parse, m, n - 1);
    }
  }

  /** The exercises of one template, exported in order; None as soon as
      one fails. */
  method ExportExercises(rawExercises: seq<TemplateExercise>, parse: FloatParser)
    returns (r: Option<seq<ExportedExercise>>)
    ensures r == ExportAll(rawExercises, parse)
  {
    var exercises: seq<ExportedExercise> := [];
    for e := 0 to |rawExercises|
      invariant ExportAll(rawExercises[..e], parse) == Some(exercises)
    {
      var x := ExportExercise(rawExercises[e], parse);
      assert rawExercises[..e + 1][..e] == rawExercises[..e];
      if x.None? {
        AllFailsAfter(rawExercises, parse, e + 1);
        return None;
      }
      exercises := exercises + [x.value];
    }
    assert rawExercises[..|rawExercises|] == rawExercises;
    r := Some(exercises);
  }

  /** `export_templates` from the template list on: every template, in list
      order, with its exercises exported, or None when a weight fails. */
  method ExportTemplates(templates: seq<TemplateRef>, details: map<string, seq<TemplateExercise>>, parse: FloatParser)
    returns (r: Option<seq<ExportedTemplate>>)
    ensures r == TemplatesExport(templates, details, parse)
  {
    var out: seq<ExportedTemplate> := [];
    for t := 0 to |templates|
      invariant TemplatesExport(templates[..t], details, parse) == Some(out)
    {
      var tmpl := templates[t];
      var exercises := ExportExercises(DetailOf(details, tmpl.code), parse);
      assert templates[..t + 1][..t] == templates[..t];
      if exercises.None? {
        TemplatesFailAfter(templates, details, parse, t + 1);
        return None;
      }
      out := out + [ExportedTemplate(if tmpl.name.Some? then tmpl.name.value else "Untitled", exercises.value)];
    }
    assert templates[..|templates|] == templates;
    r := Some(out);
  }

  lemma {:induction false} AllFailsAfter(exs: seq<TemplateExercise>, parse: FloatParser, m: nat)
    requires m <= |exs|
    requires ExportAll(exs[..m], parse) == None
    ensures ExportAll(exs, parse) == None
    decreases |exs| - m
  {
    if m < |exs| {
      assert exs[..m + 1][..m] == exs[..m];
      AllFailsAfter(exs, parse, m + 1);
    } else {
      assert exs[..m] == exs;
    }
  }

  lemma {:induction false} TemplatesFailAfter(templates: seq<TemplateRef>, details: map<string, seq<TemplateExercise>>,
                                              parse: FloatParser, m: nat)
    requires m <= |templates|
    requires TemplatesExport(templates[..m], details, parse) == None
    ensures TemplatesExport(templates, details, parse) == None
    decreases |templates| - m
  {
    if m < |templates| {
      assert templates[..m + 1][..m] == templates[..m];
      TemplatesFailAfter(templates, details, parse, m + 1);
    } else {
      assert templates[..m] == templates;
    }
  }

  /** The positions come out strictly increasing, each a non-blank reps
      piece whose weight parses. */
  lemma {:induction false} PositionsValid(cols: SetColumns, parse: FloatParser, n: nat)
    requires n <= |cols.reps|
    requires BuiltPositions(cols, parse, n).Some?
    ensures var ps := BuiltPositions(cols, parse, n).value;
            (forall k :: 0 <= k < |ps| ==>
               ps[k] < n && cols.reps[ps[k]] != "" && WeightAt(cols.weights, ps[k], parse).Some?) &&
            (forall k, l :: 0 <= k < l < |ps| ==> ps[k] < ps[l])
  {
    if n > 0 {
      PositionsValid(cols, parse, n - 1);
    }
  }

  /** No non-blank reps piece is dropped. */
  lemma {:induction false} PositionsComplete(cols: SetColumns, parse: FloatParser, n: nat)
    requires n <= |cols.reps|
    requires BuiltPositions(cols, parse, n).Some?
    ensures forall i :: 0 <= i < n && cols.reps[i] != "" ==> i in BuiltPositions(cols, parse, n).value
  {
    if n > 0 {
      PositionsComplete(cols, parse, n - 1);
    }
  }

  /** The export of an exercise fails exactly when some non-blank reps piece
      has a weight piece that does not parse. */
  lemma {:induction false} PositionsFailIff(cols: SetColumns, parse: FloatParser, n: nat)
    requires n <= |cols.reps|
    ensures BuiltPositions(cols, parse, n).None? <==>
            exists i :: 0 <= i < n && cols.reps[i] != "" && WeightAt(cols.weights, i, parse).None?
  {
    if n > 0 {
      PositionsFailIff(cols, parse, n - 1);
      if BuiltPositions(cols, parse, n - 1).Some? && cols.reps[n - 1] != "" &&
         WeightAt(cols.weights, n - 1, parse).None? {
        assert cols.reps[n - 1] != "" && WeightAt(cols.weights, n - 1, parse).None?;
      }
    }
  }

  /** The set at position `i` is numbered `i + 1`; when its weight piece
      parses, it carries that weight and weighs twice that in total. */
  lemma RecordAtWeights(cols: SetColumns, parse: FloatParser, i: nat)
    ensures RecordAt(cols, parse, i).number == i + 1
    ensures WeightAt(cols.weights, i, parse).Some? ==>
              Some(RecordAt(cols, parse, i).weightPerHandle) == WeightAt(cols.weights, i, parse) &&
              RecordAt(cols, parse, i).totalWeight == 2.0 * RecordAt(cols, parse, i).weightPerHandle
  {
  }

  /** The sets of a position list are numbered by those positions. */
  lemma SetNumbers(cols: SetColumns, parse: FloatParser, ps: seq<nat>)
    ensures |RecordsAt(cols, parse, ps)| == |ps|
    ensures forall k :: 0 <= k < |ps| ==> RecordsAt(cols, parse, ps)[k].number == ps[k] + 1
  {
    forall k | 0 <= k < |ps| ensures RecordsAt(cols, parse, ps)[k].number == ps[k] + 1 {
      RecordAtWeights(cols, parse, ps[k]);
    }
  }

  /** Every set of an exercise that exports comes from a non-blank reps
      piece at its own position, carries the weight that piece's weight
      parses to, and weighs twice that in total. */
  lemma ExportedSetsBuilt(cols: SetColumns, parse: FloatParser)
    requires BuiltPositions(cols, parse, |cols.reps|).Some?
    ensures var sets := RecordsAt(cols, parse, BuiltPositions(cols, parse, |cols.reps|).value);
            forall k :: 0 <= k < |sets| ==>
              1 <= sets[k].number <= |cols.reps| && cols.reps[sets[k].number - 1] != "" &&
              WeightAt(cols.weights, sets[k].number - 1, parse) == Some(sets[k].weightPerHandle) &&
              sets[k].totalWeight == 2.0 * sets[k].weightPerHandle
  {
    var ps := BuiltPositions(cols, parse, |cols.reps|).value;
    var sets := RecordsAt(cols, parse, ps);
    PositionsValid(cols, parse, |cols.reps|);
    forall k | 0 <= k < |sets|
      ensures sets[k].number == ps[k] + 1 &&
              WeightAt(cols.weights, ps[k], parse) == Some(sets[k].weightPerHandle) &&
              sets[k].totalWeight == 2.0 * sets[k].weightPerHandle
    {
      RecordAtWeights(cols, parse, ps[k]);
    }
  }

  /** An exercise that exports has exactly one set per non-blank reps
      piece, in column order. */
  lemma ExportedSetsOrdered(cols: SetColumns, parse: FloatParser)
    requires BuiltPositions(cols, parse, |cols.reps|).Some?
    ensures var sets := RecordsAt(cols, parse, BuiltPositions(cols, parse, |cols.reps|).value);
            (forall k, l :: 0 <= k < l < |sets| ==> sets[k].number < sets[l].number) &&
            (forall i :: 0 <= i < |cols.reps| && cols.reps[i] != "" ==>
               exists k :: 0 <= k < |sets| && sets[k].number == i + 1)
  {
    var ps := BuiltPositions(cols, parse, |cols.reps|).value;
    var sets := RecordsAt(cols, parse, ps);
    PositionsValid(cols, parse, |cols.reps|);
    PositionsComplete(cols, parse, |cols.reps|);
    SetNumbers(cols, parse, ps);
    forall i | 0 <= i < |cols.reps| && cols.reps[i] != ""
      ensures exists k :: 0 <= k < |sets| && sets[k].number == i + 1
    {
      var k :| 0 <= k < |ps| && ps[k] == i;
      assert sets[k].number == i + 1;
    }
  }

  /** The remaining fields of the set built at position `i`: the reps are
      timed exactly when the (unstripped) count type is "2", the mode and
      the rest come from the same position of their columns, and so does the
      side. */
  lemma RecordAtFields(cols: SetColumns, parse: FloatParser, i: nat)
    ensures RecordAt(cols, parse, i).reps.Timed? <==> At(cols.countTypes, i) == "2"
    ensures RecordAt(cols, parse, i).reps == RepsOf(At(cols.reps, i), At(cols.countTypes, i) == "2")
    ensures RecordAt(cols, parse, i).mode == ModeName(At(cols.modes, i))
    ensures RecordAt(cols, parse, i).restSeconds == RestSeconds(At(cols.rest, i))
    ensures RecordAt(cols, parse, i).side == SideOf(At(cols.leftRight, i))
  {
  }

  /** A set carries `counterweight_rm` exactly when its raw counterweight
      piece is neither blank nor "0", and then carries that piece. */
  lemma CounterweightRmIff(cols: SetColumns, parse: FloatParser, i: nat)
    ensures RecordAt(cols, parse, i).counterweightRm.Some? <==> IsCounterweighted(At(cols.counters, i))
    ensures RecordAt(cols, parse, i).counterweightRm.Some? ==>
              RecordAt(cols, parse, i).counterweightRm.value == At(cols.counters, i)
  {
  }

  /** The mode table: codes 1-4 name a mode, a blank code reads as
      "Standard", any other code passes through unchanged. */
  lemma ModeNameTable(code: string)
    ensures code == "1" ==> ModeName(code) == "Standard"
    ensures code == "2" || code == "3" ==> ModeName(code) == "Eccentric"
    ensures code == "4" ==> ModeName(code) == "Chain"
    ensures code == "" ==> ModeName(code) == "Standard"
    ensures code !in {"", "1", "2", "3", "4"} ==> ModeName(code) == code
  {
  }

  // ---------------------------------------------------------------------------
  // Weight rewrite (save_workout_template)

  /** `KG_TO_API`: weights are saved in the API's internal unit. */
  const KgToApi: real := 2.2

  /** What the rewrite makes of one weight piece, given the stripped
      counterweight piece at the same index. `format` renders `f"{v:.1f}"`. */
  function ConvertedWeight(w: string, counter: string, parse: FloatParser, format: real -> string): string {
    var v := Strip(w);
    if v == "" || IsCounterweighted(counter) then v
    else
      match parse(v)
      case None => v
      case Some(kg) => format(kg * KgToApi)
  }

  /** The rewritten `weights` column. */
  function RewrittenWeights(ex: TemplateExercise, parse: FloatParser, format: real -> string): string {
    var weights := WeightsColumn(ex);
    var counters := CountersColumn(ex);
    Join(seq(|weights|, i requires 0 <= i < |weights| => ConvertedWeight(weights[i], StrippedAt(counters, i), parse, format)))
  }

  /** The rewrite loop of one exercise. */
  method ConvertWeights(ex: TemplateExercise, parse: FloatParser, format: real -> string) returns (weightsCsv: string)
    ensures weightsCsv == RewrittenWeights(ex, parse, format)
  {
    var weights := WeightsColumn(ex);
    var counters := CountersColumn(ex);
    var converted: seq<string> := [];
    for i := 0 to |weights|
      invariant |converted| == i
      invariant forall k :: 0 <= k < i ==> converted[k] == ConvertedWeight(weights[k], StrippedAt(counters, k), parse, format)
    {
      var piece := ConvertPiece(weights[i], StrippedAt(counters, i), parse, format);
      converted := converted + [piece];
    }
    assert converted == seq(|weights|, i requires 0 <= i < |weights| => ConvertedWeight(weights[i], StrippedAt(counters, i), parse, format));
    weightsCsv := Join(converted);
  }

  /** One iteration of the rewrite loop: the stripped piece is kept when it
      is blank, when the set is counterweighted, or on a ValueError. */
  method ConvertPiece(weight: string, counter: string, parse: FloatParser, format: real -> string) returns (piece: string)
    ensures piece == ConvertedWeight(weight, counter, parse, format)
    ensures Strip(weight) == "" || IsCounterweighted(counter) || parse(Strip(weight)).None? ==> piece == Strip(weight)
    ensures Strip(weight) != "" && !IsCounterweighted(counter) && parse(Strip(weight)).Some? ==>
              piece == format(parse(Strip(weight)).value * KgToApi)
  {
    var w := Strip(weight);
    if w == "" {
      return w;
    }
    if counter != "" && counter != "0" {
      return w;
    }
    var kg := parse(w);
    if kg.None? {
      piece := w;
    } else {
      piece := format(kg.value * KgToApi);
    }
  }

  /** The save route's loop over `actionLibraryList`: each exercise gets its
      `weights` column rewritten and nothing else. */
  method RewriteTemplate(exs: seq<TemplateExercise>, parse: FloatParser, format: real -> string)
    returns (out: seq<TemplateExercise>)
    ensures |out| == |exs|
    ensures forall k :: 0 <= k < |exs| ==>
              out[k] == exs[k].(weights := RewrittenWeights(exs[k], parse, format))
  {
    out := [];
    for e := 0 to |exs|
      invariant |out| == e
      invariant forall k :: 0 <= k < e ==> out[k] == exs[k].(weights := RewrittenWeights(exs[k], parse, format))
    {
      var w := ConvertWeights(exs[e], parse, format);
      out := out + [exs[e].(weights := w)];
    }
  }

  lemma StripNoComma(p: string)
    requires ',' !in p
    ensures ',' !in Strip(p)
  {
    StripLeftSplits(p);
    var l := StripLeft(p);
    StripRightSplits(l);
    assert forall k :: 0 <= k < |l| ==> l[k] == p[|p| - |l| + k];
    assert forall k :: 0 <= k < |StripRight(l)| ==> StripRight(l)[k] == l[k];
  }

  /** The rewrite keeps the shape of the column: splitting the rewritten
      column gives one piece per original piece, and a piece that is blank,
      counterweighted or not a number comes back as itself, stripped. Only
      pieces that parse as a number change. */
  lemma RewriteKeepsPieces(ex: TemplateExercise, parse: FloatParser, format: real -> string)
    requires forall v :: ',' !in format(v)
    ensures |Split(RewrittenWeights(ex, parse, format))| == |WeightsColumn(ex)|
    ensures forall i :: 0 <= i < |WeightsColumn(ex)| ==>
              var w := WeightsColumn(ex)[i];
              var piece := Split(RewrittenWeights(ex, parse, format))[i];
              ((Strip(w) == "" || IsCounterweighted(StrippedAt(CountersColumn(ex), i)) || parse(Strip(w)).None?) ==>
                 piece == Strip(w)) &&
              ((Strip(w) != "" && !IsCounterweighted(StrippedAt(CountersColumn(ex), i)) && parse(Strip(w)).Some?) ==>
                 piece == format(parse(Strip(w)).value * KgToApi))
  {
    var weights := WeightsColumn(ex);
    var counters := CountersColumn(ex);
    var converted := seq(|weights|, i requires 0 <= i < |weights| => ConvertedWeight(weights[i], StrippedAt(counters, i), parse, format));
    SplitShape(ex.weights);
    assert CommaFree(converted) by {
      forall k | 0 <= k < |converted| ensures ',' !in converted[k] {
        StripNoComma(weights[k]);
      }
    }
    SplitJoin(converted);
  }
}
