/** structureProgram of lib/csv/import-to-db.ts: parsed CSV rows grouped
    into weeks, each week's rows into workouts keyed by day and workout
    name, each workout's rows into exercises keyed by exercise name and
    group. Exercises are numbered from 0 in first-appearance order, each
    keeps its rows as prescribed sets in input order, workouts are stably
    sorted by day number and weeks by week number. */
module ProgramStructure {
  import opened Wrappers
  import opened Text
  import opened Collections

  /** A validated CSV row. lib/csv/types.ts is not part of this model; the
      field types follow their uses: week, day and set are numbers that
      are compared and subtracted, reps is a string, and the other fields
      are copied as they are. */
  datatype CsvRow = CsvRow(
    week: int,
    day: int,
    workoutName: string,
    exercise: string,
    exerciseGroup: Option<string>,
    setNumber: int,
    reps: string,
    weight: Option<string>,
    rpe: Option<int>,
    rir: Option<int>,
    notes: Option<string>)

  datatype PrescribedSet = PrescribedSet(
    setNumber: int,
    reps: string,
    weight: Option<string>,
    rpe: Option<int>,
    rir: Option<int>)

  datatype StructuredExercise = StructuredExercise(
    name: string,
    order: nat,
    exerciseGroup: Option<string>,
    notes: Option<string>,
    prescribedSets: seq<PrescribedSet>)

  datatype StructuredWorkout = StructuredWorkout(
    name: string,
    dayNumber: int,
    exercises: seq<StructuredExercise>)

  datatype StructuredWeek = StructuredWeek(weekNumber: int, workouts: seq<StructuredWorkout>)

  /** `D` stands for the detected-columns record, which is passed through. */
  datatype Metadata<D> = Metadata(name: string, totalWeeks: nat, detectedColumns: D)

  datatype StructuredProgram<D> = StructuredProgram(metadata: Metadata<D>, weeks: seq<StructuredWeek>)

  // ------------------------------------------------------------------ keys

  function WeekKey(r: CsvRow): int {
    r.week
  }

  /** `${day}-${name}`, the key of a workout. */
  function DayKey(day: int, name: string): string {
    IntToString(day) + "-" + name
  }

  function WorkoutKey(r: CsvRow): string {
    DayKey(r.day, r.workoutName)
  }

  /** `group || ''`: a missing group and an empty one are the same. */
  function OrEmpty(g: Option<string>): string {
    if g.Some? then g.value else ""
  }

  /** `${exercise}-${group || ''}`, the key of an exercise. */
  function NameKey(exercise: string, group: Option<string>): string {
    exercise + "-" + OrEmpty(group)
  }

  function ExerciseKey(r: CsvRow): string {
    NameKey(r.exercise, r.exerciseGroup)
  }

  /** A workout key read back: an optional minus sign, the digits of the
      day, the first "-" after them, and the name. */
  lemma DayKeyParts(d: int, n: string) returns (p: nat, a: string)
    ensures a == NatToString(if d < 0 then -d else d)
    ensures p == (if d < 0 then 1 else 0)
    ensures p <= |DayKey(d, n)| && DayKey(d, n)[p..] == a + "-" + n
    ensures DayKey(d, n)[0] == '-' <==> d < 0
    ensures '-' !in a
  {
    a := NatToString(if d < 0 then -d else d);
    p := if d < 0 then 1 else 0;
    DigitsLack(a, '-');
    var k := DayKey(d, n);
    if d < 0 {
      assert k == "-" + (a + "-" + n) by {
        assert IntToString(d) == "-" + a;
      }
      assert k[1..] == a + "-" + n;
    } else {
      assert k == a + ("-" + n) by {
        assert IntToString(d) == a;
      }
      assert k[0] == a[0] && IsDigit(a[0]);
    }
  }

  lemma DayKeyDay(d1: int, n1: string, d2: int, n2: string)
    requires DayKey(d1, n1) == DayKey(d2, n2)
    ensures d1 == d2
  {
    var p1, a1 := DayKeyParts(d1, n1);
    var p2, a2 := DayKeyParts(d2, n2);
    assert p1 == p2;
    SplitFirst(a1, '-', n1, a2, n2);
    NatToStringInjective(if d1 < 0 then -d1 else d1, if d2 < 0 then -d2 else d2);
  }

  /** The string key of a workout tells its day and name apart: two rows
      share a workout exactly when they share the day and the workout
      name, whatever characters the name holds. */
  lemma DayKeyInjective(d1: int, n1: string, d2: int, n2: string)
    ensures DayKey(d1, n1) == DayKey(d2, n2) <==> d1 == d2 && n1 == n2
  {
    if DayKey(d1, n1) == DayKey(d2, n2) {
      DayKeyDay(d1, n1, d2, n2);
      var prefix := IntToString(d1) + "-";
      assert DayKey(d1, n1) == prefix + n1 && DayKey(d2, n2) == prefix + n2;
      assert n1 == DayKey(d1, n1)[|prefix|..];
    }
  }

  /** The exercise key does not tell name and group apart: "Press-" with no
      group and "Press" in group "-" share a key, so their rows form one
      exercise. */
  lemma NameKeyCollides()
    ensures NameKey("Press-", None) == NameKey("Press", Some("-"))
  {
  }

  // ---------------------------------------------------------- the hierarchy

  function SetOf(r: CsvRow): PrescribedSet {
    PrescribedSet(r.setNumber, r.reps, r.weight, r.rpe, r.rir)
  }

  /** An exercise: name, group and notes of its first row, and one set per
      row. */
  function ExerciseFrom(exerciseRows: seq<CsvRow>, order: nat): StructuredExercise
    requires exerciseRows != []
  {
    var first := exerciseRows[0];
    StructuredExercise(first.exercise, order, first.exerciseGroup, first.notes, Map(exerciseRows, SetOf))
  }

  /** Every key seen selects at least one element. */
  lemma FirstSeenSelects<T, K>(xs: seq<T>, key: T -> K)
    ensures forall k :: k in FirstSeen(xs, key) ==> FilterKey(xs, key, k) != []
  {
    forall k | k in FirstSeen(xs, key) ensures FilterKey(xs, key, k) != [] {
      FilterKeySeen(xs, key, k);
    }
  }

  /** The exercises of a workout's rows, one per exercise key in
      first-appearance order, numbered from 0. */
  function ExercisesOf(workoutRows: seq<CsvRow>): seq<StructuredExercise> {
    var ks := FirstSeen(workoutRows, ExerciseKey);
    FirstSeenSelects(workoutRows, ExerciseKey);
    seq(|ks|, i requires 0 <= i < |ks| => ExerciseFrom(FilterKey(workoutRows, ExerciseKey, ks[i]), i))
  }

  /** A workout: name and day of its first row. */
  function WorkoutFrom(workoutRows: seq<CsvRow>): StructuredWorkout
    requires workoutRows != []
  {
    StructuredWorkout(workoutRows[0].workoutName, workoutRows[0].day, ExercisesOf(workoutRows))
  }

  /** The workouts of a week's rows in first-appearance order, before the
      sort. */
  function WorkoutsOf(weekRows: seq<CsvRow>): seq<StructuredWorkout> {
    var ks := FirstSeen(weekRows, WorkoutKey);
    FirstSeenSelects(weekRows, WorkoutKey);
    seq(|ks|, i requires 0 <= i < |ks| => WorkoutFrom(FilterKey(weekRows, WorkoutKey, ks[i])))
  }

  function DayNumber(w: StructuredWorkout): int {
    w.dayNumber
  }

  function WeekFrom(weekRows: seq<CsvRow>, weekNumber: int): StructuredWeek {
    StructuredWeek(weekNumber, SortBy(WorkoutsOf(weekRows), DayNumber))
  }

  /** The weeks in first-appearance order, before the sort. */
  function WeeksOf(rows: seq<CsvRow>): seq<StructuredWeek> {
    var ks := FirstSeen(rows, WeekKey);
    seq(|ks|, i requires 0 <= i < |ks| => WeekFrom(FilterKey(rows, WeekKey, ks[i]), ks[i]))
  }

  function WeekNumber(w: StructuredWeek): int {
    w.weekNumber
  }

  /** What structureProgram returns. */
  function Structure<D>(rows: seq<CsvRow>, programName: string, detectedColumns: D): StructuredProgram<D> {
    var weeks := SortBy(WeeksOf(rows), WeekNumber);
    StructuredProgram(Metadata(programName, |weeks|, detectedColumns), weeks)
  }

  // -------------------------------------------------------------- methods

  /** structureProgram: the three levels of Map grouping, the exercise
      counter and the two sorts. */
  method StructureProgram<D>(rows: seq<CsvRow>, programName: string, detectedColumns: D)
    returns (program: StructuredProgram<D>)
    ensures program == Structure(rows, programName, detectedColumns)
  {
    var weekMap := GroupBy(rows, WeekKey);
    var weeks := BuildWeeks(rows, weekMap);
    weeks := SortBy(weeks, WeekNumber);
    program := StructuredProgram(Metadata(programName, |weeks|, detectedColumns), weeks);
  }

  /** The week Map's forEach: one week per entry, in the Map's order. */
  method BuildWeeks(rows: seq<CsvRow>, weekMap: OrderedMap<int, seq<CsvRow>>) returns (weeks: seq<StructuredWeek>)
    requires weekMap.keys == FirstSeen(rows, WeekKey)
    requires forall k :: k in weekMap.entries <==> k in weekMap.keys
    requires forall k :: k in weekMap.entries ==> weekMap.entries[k] == FilterKey(rows, WeekKey, k)
    ensures weeks == WeeksOf(rows)
  {
    ghost var all := WeeksOf(rows);
    weeks := [];
    for i := 0 to |weekMap.keys|
      invariant weeks == all[..i]
    {
      var weekNumber := weekMap.keys[i];
      var week := BuildWeek(weekMap.entries[weekNumber], weekNumber);
      assert weeks + [week] == all[..i + 1] by {
        assert weekMap.entries[weekNumber] == FilterKey(rows, WeekKey, weekNumber);
        PrefixSnoc(all, i);
      }
      weeks := weeks + [week];
    }
    assert all[..|weekMap.keys|] == all;
  }

  /** One week of the week Map's forEach. */
  method BuildWeek(weekRows: seq<CsvRow>, weekNumber: int) returns (week: StructuredWeek)
    ensures week == WeekFrom(weekRows, weekNumber)
  {
    var workouts := BuildWorkouts(weekRows);
    week := StructuredWeek(weekNumber, workouts);
  }

  /** One week: group its rows by workout key, build each workout, sort by
      day number. */
  method BuildWorkouts(weekRows: seq<CsvRow>) returns (workouts: seq<StructuredWorkout>)
    ensures workouts == SortBy(WorkoutsOf(weekRows), DayNumber)
  {
    var workoutMap := GroupBy(weekRows, WorkoutKey);
    FirstSeenSelects(weekRows, WorkoutKey);
    ghost var all := WorkoutsOf(weekRows);
    workouts := [];
    for i := 0 to |workoutMap.keys|
      invariant workouts == all[..i]
    {
      var key := workoutMap.keys[i];
      assert workoutMap.entries[key] == FilterKey(weekRows, WorkoutKey, key);
      var workout := BuildWorkout(workoutMap.entries[key]);
      assert workouts + [workout] == all[..i + 1] by {
        PrefixSnoc(all, i);
      }
      workouts := workouts + [workout];
    }
    assert all[..|workoutMap.keys|] == all;
    workouts := SortBy(workouts, DayNumber);
  }

  /** One workout of the workout Map's forEach: name and day of its first
      row. */
  method BuildWorkout(workoutRows: seq<CsvRow>) returns (workout: StructuredWorkout)
    requires workoutRows != []
    ensures workout == WorkoutFrom(workoutRows)
  {
    var firstRow := workoutRows[0];
    var exercises := BuildExercises(workoutRows);
    workout := StructuredWorkout(firstRow.workoutName, firstRow.day, exercises);
  }

  /** One workout: group its rows by exercise key and number the exercises
      with a counter. */
  method BuildExercises(workoutRows: seq<CsvRow>) returns (exercises: seq<StructuredExercise>)
    ensures exercises == ExercisesOf(workoutRows)
  {
    var exerciseMap := GroupBy(workoutRows, ExerciseKey);
    FirstSeenSelects(workoutRows, ExerciseKey);
    ghost var all := ExercisesOf(workoutRows);
    exercises := [];
    var exerciseOrder := 0;
    for i := 0 to |exerciseMap.keys|
      invariant exerciseOrder == i
      invariant exercises == all[..i]
    {
      var exerciseRows := exerciseMap.entries[exerciseMap.keys[i]];
      var first := exerciseRows[0];
      assert all[i] == StructuredExercise(first.exercise, exerciseOrder, first.exerciseGroup, first.notes, Map(exerciseRows, SetOf));
      PrefixSnoc(all, i);
      exercises := exercises + [StructuredExercise(first.exercise, exerciseOrder, first.exerciseGroup, first.notes, Map(exerciseRows, SetOf))];
      exerciseOrder := exerciseOrder + 1;
    }
    assert all[..|exerciseMap.keys|] == all;
  }

  // ------------------------------------------------------------ properties

  function ExerciseSets(e: StructuredExercise): seq<PrescribedSet> {
    e.prescribedSets
  }

  function WorkoutSets(w: StructuredWorkout): seq<PrescribedSet> {
    FlatMap(w.exercises, ExerciseSets)
  }

  function WeekSets(w: StructuredWeek): seq<PrescribedSet> {
    FlatMap(w.workouts, WorkoutSets)
  }

  /** Every prescribed set of a program, week by week. */
  function ProgramSets<D>(p: StructuredProgram<D>): seq<PrescribedSet> {
    FlatMap(p.weeks, WeekSets)
  }

  /** A workout holds one set per row of its group. */
  lemma WorkoutConserves(workoutRows: seq<CsvRow>)
    requires workoutRows != []
    ensures multiset(WorkoutSets(WorkoutFrom(workoutRows))) == multiset(Map(workoutRows, SetOf))
  {
    var ks := FirstSeen(workoutRows, ExerciseKey);
    var es := ExercisesOf(workoutRows);
    GroupsFlatten(workoutRows, ExerciseKey, ks, es, ExerciseSets, SetOf);
    RegroupPermutation(workoutRows, ExerciseKey);
    MapMultiset(Regroup(workoutRows, ExerciseKey, ks), workoutRows, SetOf);
  }

  /** A week holds one set per row of its group. */
  lemma WeekConserves(weekRows: seq<CsvRow>, weekNumber: int)
    ensures multiset(WeekSets(WeekFrom(weekRows, weekNumber))) == multiset(Map(weekRows, SetOf))
  {
    var ks := FirstSeen(weekRows, WorkoutKey);
    var ws := WorkoutsOf(weekRows);
    FlatMapMultiset(SortBy(ws, DayNumber), ws, WorkoutSets);
    forall i | 0 <= i < |ks|
      ensures multiset(WorkoutSets(ws[i])) == multiset(Map(FilterKey(weekRows, WorkoutKey, ks[i]), SetOf))
    {
      FirstSeenSelects(weekRows, WorkoutKey);
      WorkoutConserves(FilterKey(weekRows, WorkoutKey, ks[i]));
    }
    GroupsFlatten(weekRows, WorkoutKey, ks, ws, WorkoutSets, SetOf);
    RegroupPermutation(weekRows, WorkoutKey);
    MapMultiset(Regroup(weekRows, WorkoutKey, ks), weekRows, SetOf);
  }

  /** Nothing is lost or duplicated: the program's prescribed sets are the
      rows' sets, one per row, regrouped. */
  lemma StructureConserves<D>(rows: seq<CsvRow>, programName: string, detectedColumns: D)
    ensures multiset(ProgramSets(Structure(rows, programName, detectedColumns))) == multiset(Map(rows, SetOf))
    ensures |ProgramSets(Structure(rows, programName, detectedColumns))| == |rows|
  {
    var ks := FirstSeen(rows, WeekKey);
    var ws := WeeksOf(rows);
    FlatMapMultiset(SortBy(ws, WeekNumber), ws, WeekSets);
    forall i | 0 <= i < |ks|
      ensures multiset(WeekSets(ws[i])) == multiset(Map(FilterKey(rows, WeekKey, ks[i]), SetOf))
    {
      WeekConserves(FilterKey(rows, WeekKey, ks[i]), ks[i]);
    }
    GroupsFlatten(rows, WeekKey, ks, ws, WeekSets, SetOf);
    RegroupPermutation(rows, WeekKey);
    MapMultiset(Regroup(rows, WeekKey, ks), rows, SetOf);
    assert |multiset(ProgramSets(Structure(rows, programName, detectedColumns)))| == |multiset(Map(rows, SetOf))|;
  }

  /** Sorting keeps the elements. */
  lemma SortByMembers<T>(xs: seq<T>, key: T -> int)
    ensures forall x :: x in SortBy(xs, key) <==> x in xs
  {
    var ys := SortBy(xs, key);
    forall x ensures x in ys <==> x in xs {
      assert x in ys <==> x in multiset(ys);
      assert x in xs <==> x in multiset(xs);
    }
  }

  /** Weeks come in strictly ascending week number, one per distinct week
      number of the rows; totalWeeks is their count. */
  lemma StructureWeeksOrder<D>(rows: seq<CsvRow>, programName: string, detectedColumns: D)
    ensures var p := Structure(rows, programName, detectedColumns);
      && p.metadata.totalWeeks == |p.weeks| == |FirstSeen(rows, WeekKey)|
      && forall i, j :: 0 <= i < j < |p.weeks| ==> p.weeks[i].weekNumber < p.weeks[j].weekNumber
  {
    var ws := WeeksOf(rows);
    assert Map(ws, WeekNumber) == FirstSeen(rows, WeekKey);
    SortByStrict(ws, WeekNumber);
  }

  /** Each week is built from exactly the rows of its number. */
  lemma StructureWeeksGroups<D>(rows: seq<CsvRow>, programName: string, detectedColumns: D)
    ensures forall w :: w in Structure(rows, programName, detectedColumns).weeks ==>
      FilterKey(rows, WeekKey, w.weekNumber) != []
      && w == WeekFrom(FilterKey(rows, WeekKey, w.weekNumber), w.weekNumber)
  {
    var ks := FirstSeen(rows, WeekKey);
    var ws := WeeksOf(rows);
    SortByMembers(ws, WeekNumber);
    FirstSeenSelects(rows, WeekKey);
    forall w | w in SortBy(ws, WeekNumber)
      ensures FilterKey(rows, WeekKey, w.weekNumber) != []
      ensures w == WeekFrom(FilterKey(rows, WeekKey, w.weekNumber), w.weekNumber)
    {
      var i :| 0 <= i < |ws| && ws[i] == w;
    }
  }

  /** Every row's week number has a week. */
  lemma StructureWeeksCover<D>(rows: seq<CsvRow>, programName: string, detectedColumns: D)
    ensures forall r :: r in rows ==>
      exists w :: w in Structure(rows, programName, detectedColumns).weeks && w.weekNumber == r.week
  {
    var ks := FirstSeen(rows, WeekKey);
    var ws := WeeksOf(rows);
    SortByMembers(ws, WeekNumber);
    FirstSeenMembers(rows, WeekKey);
    forall r | r in rows ensures exists w :: w in SortBy(ws, WeekNumber) && w.weekNumber == r.week {
      var i :| 0 <= i < |ks| && ks[i] == WeekKey(r);
      assert ws[i] in SortBy(ws, WeekNumber);
    }
  }

  /** Each workout carries the key it was grouped under. */
  lemma WorkoutIds(weekRows: seq<CsvRow>)
    ensures Map(WorkoutsOf(weekRows), WorkoutId) == FirstSeen(weekRows, WorkoutKey)
  {
    var ks := FirstSeen(weekRows, WorkoutKey);
    var us := WorkoutsOf(weekRows);
    FirstSeenSelects(weekRows, WorkoutKey);
    forall i | 0 <= i < |us| ensures WorkoutId(us[i]) == ks[i] {
      var g := FilterKey(weekRows, WorkoutKey, ks[i]);
      FilterKeySound(weekRows, WorkoutKey, ks[i]);
      assert g[0] in g;
    }
  }

  /** The workouts of a week are sorted by day number, and workouts on the
      same day keep their first-appearance order. */
  lemma WeekWorkoutsOrder(weekRows: seq<CsvRow>, weekNumber: int)
    ensures var ws := WeekFrom(weekRows, weekNumber).workouts;
      && SortedBy(ws, DayNumber)
      && forall d :: FilterKey(ws, DayNumber, d) == FilterKey(WorkoutsOf(weekRows), DayNumber, d)
  {
    forall d ensures FilterKey(SortBy(WorkoutsOf(weekRows), DayNumber), DayNumber, d) == FilterKey(WorkoutsOf(weekRows), DayNumber, d) {
      SortByStable(WorkoutsOf(weekRows), DayNumber, d);
    }
  }

  /** No two workouts of a week share both day and name. */
  lemma WeekWorkoutsDistinct(weekRows: seq<CsvRow>, weekNumber: int)
    ensures var ws := WeekFrom(weekRows, weekNumber).workouts;
      forall i, j :: 0 <= i < j < |ws| ==> ws[i].dayNumber != ws[j].dayNumber || ws[i].name != ws[j].name
  {
    var us := WorkoutsOf(weekRows);
    var ws := SortBy(us, DayNumber);
    WorkoutIds(weekRows);
    MapMultiset(us, ws, WorkoutId);
    DistinctMultiset(Map(us, WorkoutId), Map(ws, WorkoutId));
    forall i, j | 0 <= i < j < |ws| ensures ws[i].dayNumber != ws[j].dayNumber || ws[i].name != ws[j].name {
      assert Map(ws, WorkoutId)[i] != Map(ws, WorkoutId)[j];
    }
  }

  /** Each workout of a week is built from exactly the rows of its day and
      name, and every day and name in the rows has a workout. */
  lemma WeekWorkoutsGroups(weekRows: seq<CsvRow>, weekNumber: int)
    ensures var ws := WeekFrom(weekRows, weekNumber).workouts;
      && (forall w :: w in ws ==>
            FilterKey(weekRows, WorkoutKey, WorkoutId(w)) != []
            && w == WorkoutFrom(FilterKey(weekRows, WorkoutKey, WorkoutId(w))))
      && (forall r :: r in weekRows ==> exists w :: w in ws && w.dayNumber == r.day && w.name == r.workoutName)
  {
    SortByMembers(WorkoutsOf(weekRows), DayNumber);
    WorkoutsBuilt(weekRows);
    WorkoutsCover(weekRows);
  }

  /** Each unsorted workout is built from the rows of its key. */
  lemma WorkoutsBuilt(weekRows: seq<CsvRow>)
    ensures forall w :: w in WorkoutsOf(weekRows) ==>
      FilterKey(weekRows, WorkoutKey, WorkoutId(w)) != []
      && w == WorkoutFrom(FilterKey(weekRows, WorkoutKey, WorkoutId(w)))
  {
    var ks := FirstSeen(weekRows, WorkoutKey);
    var us := WorkoutsOf(weekRows);
    WorkoutIds(weekRows);
    FirstSeenSelects(weekRows, WorkoutKey);
    forall w | w in us
      ensures FilterKey(weekRows, WorkoutKey, WorkoutId(w)) != []
      ensures w == WorkoutFrom(FilterKey(weekRows, WorkoutKey, WorkoutId(w)))
    {
      var i :| 0 <= i < |us| && us[i] == w;
      assert Map(us, WorkoutId)[i] == ks[i];
    }
  }

  /** Every day and name in the rows has an unsorted workout. */
  lemma WorkoutsCover(weekRows: seq<CsvRow>)
    ensures forall r :: r in weekRows ==>
      exists w :: w in WorkoutsOf(weekRows) && w.dayNumber == r.day && w.name == r.workoutName
  {
    var ks := FirstSeen(weekRows, WorkoutKey);
    var us := WorkoutsOf(weekRows);
    WorkoutIds(weekRows);
    FirstSeenMembers(weekRows, WorkoutKey);
    forall r | r in weekRows ensures exists w :: w in us && w.dayNumber == r.day && w.name == r.workoutName {
      var i :| 0 <= i < |ks| && ks[i] == WorkoutKey(r);
      assert Map(us, WorkoutId)[i] == ks[i];
      DayKeyInjective(us[i].dayNumber, us[i].name, r.day, r.workoutName);
      assert us[i] in us;
    }
  }

  /** The key a workout was grouped under. */
  function WorkoutId(w: StructuredWorkout): string {
    DayKey(w.dayNumber, w.name)
  }

  /** The exercises of a workout: numbered 0, 1, 2, ... in first-appearance
      order, no two sharing a key, one for every key in the rows, and each
      holding the sets of exactly the rows with its key, in input order. */
  lemma WorkoutExercises(workoutRows: seq<CsvRow>)
    requires workoutRows != []
    ensures var es := WorkoutFrom(workoutRows).exercises;
      && (forall i :: 0 <= i < |es| ==> es[i].order == i)
      && (forall i :: 0 <= i < |es| ==>
            es[i].prescribedSets == Map(FilterKey(workoutRows, ExerciseKey, ExerciseId(es[i])), SetOf))
      && (forall i, j :: 0 <= i < j < |es| ==> ExerciseId(es[i]) != ExerciseId(es[j]))
      && (forall r :: r in workoutRows ==> exists e :: e in es && ExerciseId(e) == ExerciseKey(r))
  {
    var ks := FirstSeen(workoutRows, ExerciseKey);
    var es := ExercisesOf(workoutRows);
    ExerciseIds(workoutRows);
    FirstSeenMembers(workoutRows, ExerciseKey);
    forall r | r in workoutRows ensures exists e :: e in es && ExerciseId(e) == ExerciseKey(r) {
      var i :| 0 <= i < |ks| && ks[i] == ExerciseKey(r);
      assert es[i] in es;
    }
  }

  /** The exercises carry the distinct keys, first seen first. */
  lemma ExerciseIds(workoutRows: seq<CsvRow>)
    ensures |ExercisesOf(workoutRows)| == |FirstSeen(workoutRows, ExerciseKey)|
    ensures forall i :: 0 <= i < |ExercisesOf(workoutRows)| ==>
      ExerciseId(ExercisesOf(workoutRows)[i]) == FirstSeen(workoutRows, ExerciseKey)[i]
  {
    var ks := FirstSeen(workoutRows, ExerciseKey);
    var es := ExercisesOf(workoutRows);
    FirstSeenSelects(workoutRows, ExerciseKey);
    forall i | 0 <= i < |es| ensures ExerciseId(es[i]) == ks[i] {
      var g := FilterKey(workoutRows, ExerciseKey, ks[i]);
      FilterKeySound(workoutRows, ExerciseKey, ks[i]);
      assert g[0] in g;
    }
  }

  /** The key an exercise was grouped under. */
  function ExerciseId(e: StructuredExercise): string {
    NameKey(e.name, e.exerciseGroup)
  }

  /** The path of a row through the hierarchy: week, workout key, exercise
      key. */
  function RowPath(r: CsvRow): (int, string, string) {
    (r.week, WorkoutKey(r), ExerciseKey(r))
  }

  /** Grouping three times selects the rows with the whole path. */
  lemma {:induction false} FilterPath(rows: seq<CsvRow>, a: int, b: string, c: string)
    ensures FilterKey(FilterKey(FilterKey(rows, WeekKey, a), WorkoutKey, b), ExerciseKey, c)
         == FilterKey(rows, RowPath, (a, b, c))
  {
    if rows != [] {
      var init, x := rows[..|rows| - 1], rows[|rows| - 1];
      FilterPath(init, a, b, c);
      var s1 := if x.week == a then [x] else [];
      var f1 := FilterKey(init, WeekKey, a);
      assert FilterKey(rows, WeekKey, a) == f1 + s1;
      FilterKeyConcat(f1, s1, WorkoutKey, b);
      var s2 := FilterKey(s1, WorkoutKey, b);
      FilterKeySingleton(x, WorkoutKey, b);
      FilterKeyConcat(FilterKey(f1, WorkoutKey, b), s2, ExerciseKey, c);
      FilterKeySingleton(x, ExerciseKey, c);
    }
  }

  /** Every exercise of the program holds the sets of exactly the rows with
      its week, its day and workout name and its exercise key, in input
      order. */
  lemma StructureSets<D>(rows: seq<CsvRow>, programName: string, detectedColumns: D)
    ensures forall w, wo, e ::
      w in Structure(rows, programName, detectedColumns).weeks && wo in w.workouts && e in wo.exercises ==>
        e.prescribedSets == Map(FilterKey(rows, RowPath, (w.weekNumber, WorkoutId(wo), ExerciseId(e))), SetOf)
  {
    StructureWeeksGroups(rows, programName, detectedColumns);
    forall w, wo, e | w in Structure(rows, programName, detectedColumns).weeks && wo in w.workouts && e in wo.exercises
      ensures e.prescribedSets == Map(FilterKey(rows, RowPath, (w.weekNumber, WorkoutId(wo), ExerciseId(e))), SetOf)
    {
      var weekRows := FilterKey(rows, WeekKey, w.weekNumber);
      WeekWorkoutsGroups(weekRows, w.weekNumber);
      var workoutRows := FilterKey(weekRows, WorkoutKey, WorkoutId(wo));
      WorkoutExercises(workoutRows);
      var i :| 0 <= i < |wo.exercises| && wo.exercises[i] == e;
      FilterPath(rows, w.weekNumber, WorkoutId(wo), ExerciseId(e));
    }
  }
}
