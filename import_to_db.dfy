/** matchExerciseDefinition and importProgramToDatabase of
    lib/csv/import-to-db.ts, over an in-memory database: the exercise
    definition table, the program table and an id counter. Matching tries
    the normalized name, then the aliases, then creates a custom
    definition; importing deactivates the user's active programs, creates
    the new active program and below it one record per week, workout,
    exercise and prescribed set. */
module ImportToDb {
  import opened Wrappers
  import opened Text
  import opened Collections
  import opened ProgramStructure

  datatype Definition = Definition(
    id: nat,
    name: string,
    normalizedName: string,
    aliases: seq<string>,
    isSystem: bool,
    createdBy: Option<string>)

  /** The definition table and the next fresh id. */
  datatype Table = Table(defs: seq<Definition>, nextId: nat)

  predicate FreshIds(t: Table) {
    forall i :: 0 <= i < |t.defs| ==> t.defs[i].id < t.nextId
  }

  /** `findFirst({ where })`: the first definition, in table order, that
      satisfies the condition. */
  function Find(defs: seq<Definition>, p: Definition -> bool): (r: Option<nat>)
    ensures r.Some? ==> r.value < |defs| && p(defs[r.value]) && forall j :: 0 <= j < r.value ==> !p(defs[j])
    ensures r.None? ==> forall j :: 0 <= j < |defs| ==> !p(defs[j])
  {
    if defs == [] then None
    else if p(defs[0]) then Some(0)
    else match Find(defs[1..], p)
      case None => None
      case Some(i) => Some(i + 1)
  }

  function ByName(normalized: string): Definition -> bool {
    (d: Definition) => d.normalizedName == normalized
  }

  function ByAlias(normalized: string): Definition -> bool {
    (d: Definition) => normalized in d.aliases
  }

  datatype Matched = Matched(id: nat, table: Table)

  /** The three stages: exact normalized name, then alias, then a new
      custom definition created by the user. */
  function Match(t: Table, exerciseName: string, userId: string): Matched {
    var normalized := Normalize(exerciseName);
    match Find(t.defs, ByName(normalized))
    case Some(i) => Matched(t.defs[i].id, t)
    case None =>
      match Find(t.defs, ByAlias(normalized))
      case Some(i) => Matched(t.defs[i].id, t)
      case None =>
        var created := Definition(t.nextId, exerciseName, normalized, [], false, Some(userId));
        Matched(t.nextId, Table(t.defs + [created], t.nextId + 1))
  }

  /** A definition matches a name when its normalized name or one of its
      aliases is the name's normal form. */
  predicate Matches(d: Definition, exerciseName: string) {
    d.normalizedName == Normalize(exerciseName) || Normalize(exerciseName) in d.aliases
  }

  /** The table only grows. */
  predicate Grows(before: Table, after: Table) {
    |before.defs| <= |after.defs| && after.defs[..|before.defs|] == before.defs
    && before.nextId <= after.nextId
  }

  lemma GrowsTrans(a: Table, b: Table, c: Table)
    requires Grows(a, b) && Grows(b, c)
    ensures Grows(a, c)
  {
    assert c.defs[..|a.defs|] == c.defs[..|b.defs|][..|a.defs|];
  }

  /** Stage by stage: a definition whose normalized name matches wins, and
      the first such; only when there is none does an alias match, and the
      first such; only when neither exists is a definition created, with
      the name as given, its normal form, no aliases, not a system
      definition, created by the user. */
  lemma MatchStages(t: Table, exerciseName: string, userId: string)
    ensures var m := Match(t, exerciseName, userId);
      var n := Normalize(exerciseName);
      && ((exists i :: 0 <= i < |t.defs| && t.defs[i].normalizedName == n) ==>
            m.table == t
            && (exists i :: 0 <= i < |t.defs| && t.defs[i].normalizedName == n && m.id == t.defs[i].id
                 && forall j :: 0 <= j < i ==> t.defs[j].normalizedName != n))
      && ((forall i :: 0 <= i < |t.defs| ==> t.defs[i].normalizedName != n)
          && (exists i :: 0 <= i < |t.defs| && n in t.defs[i].aliases) ==>
            m.table == t
            && (exists i :: 0 <= i < |t.defs| && n in t.defs[i].aliases && m.id == t.defs[i].id
                 && forall j :: 0 <= j < i ==> n !in t.defs[j].aliases))
      && ((forall i :: 0 <= i < |t.defs| ==> t.defs[i].normalizedName != n && n !in t.defs[i].aliases) ==>
            m.id == t.nextId
            && m.table == Table(t.defs + [Definition(t.nextId, exerciseName, n, [], false, Some(userId))], t.nextId + 1))
  {
    var n := Normalize(exerciseName);
    var byName := Find(t.defs, ByName(n));
    var byAlias := Find(t.defs, ByAlias(n));
    if exists i :: 0 <= i < |t.defs| && t.defs[i].normalizedName == n {
      var i :| 0 <= i < |t.defs| && t.defs[i].normalizedName == n;
      assert ByName(n)(t.defs[i]);
    }
    if exists i :: 0 <= i < |t.defs| && n in t.defs[i].aliases {
      var i :| 0 <= i < |t.defs| && n in t.defs[i].aliases;
      assert ByAlias(n)(t.defs[i]);
    }
  }

  /** The returned id names a definition of the new table that matches the
      name; the table only grows, and fresh ids stay fresh. */
  lemma MatchResolves(t: Table, exerciseName: string, userId: string)
    ensures var m := Match(t, exerciseName, userId);
      && Grows(t, m.table)
      && (exists i :: 0 <= i < |m.table.defs| && m.table.defs[i].id == m.id && Matches(m.table.defs[i], exerciseName))
      && (FreshIds(t) ==> FreshIds(m.table))
  {
    var m := Match(t, exerciseName, userId);
    var n := Normalize(exerciseName);
    match Find(t.defs, ByName(n))
    case Some(i) =>
      assert m.table.defs[i].id == m.id && Matches(m.table.defs[i], exerciseName);
    case None =>
      match Find(t.defs, ByAlias(n))
      case Some(i) =>
        assert m.table.defs[i].id == m.id && Matches(m.table.defs[i], exerciseName);
      case None =>
        var k := |t.defs|;
        assert m.table.defs[..k] == t.defs;
        assert m.table.defs[k].id == m.id && Matches(m.table.defs[k], exerciseName);
  }

  /** An element appended to a sequence with no match is the first
      match. */
  lemma FindAppended(defs: seq<Definition>, x: Definition, p: Definition -> bool)
    requires Find(defs, p).None? && p(x)
    ensures Find(defs + [x], p) == Some(|defs|)
  {
    var r := Find(defs + [x], p);
    assert (defs + [x])[|defs|] == x;
    assert forall j :: 0 <= j < |defs| ==> (defs + [x])[j] == defs[j];
  }

  /** Matching again finds what the first match found or created, and
      creates nothing more: a second row with the same exercise reuses the
      definition, whoever imports it. */
  lemma MatchIdempotent(t: Table, a: string, b: string, userId: string, userId': string)
    requires Normalize(a) == Normalize(b)
    ensures var m := Match(t, a, userId);
      Match(m.table, b, userId') == m
  {
    var n := Normalize(a);
    var m := Match(t, a, userId);
    if Find(t.defs, ByName(n)).None? && Find(t.defs, ByAlias(n)).None? {
      var created := Definition(t.nextId, a, n, [], false, Some(userId));
      assert m.table.defs == t.defs + [created];
      FindAppended(t.defs, created, ByName(n));
    }
  }

  /** Two names with the same normal form match the same definition. */
  lemma MatchIgnoresCase(t: Table, a: string, b: string, userId: string)
    requires Normalize(a) == Normalize(b)
    ensures Match(t, a, userId).id == Match(t, b, userId).id
  {
  }

  // ---------------------------------------------------------------- records

  /** An exercise row of the database: its definition's id and its
      prescribed sets (the `exerciseId` of a set is its place here). */
  datatype ExerciseRecord = ExerciseRecord(
    name: string,
    definitionId: nat,
    order: nat,
    exerciseGroup: Option<string>,
    notes: Option<string>,
    sets: seq<PrescribedSet>)

  datatype WorkoutRecord = WorkoutRecord(name: string, dayNumber: int, exercises: seq<ExerciseRecord>)

  datatype WeekRecord = WeekRecord(weekNumber: int, workouts: seq<WorkoutRecord>)

  datatype ProgramRecord = ProgramRecord(id: nat, name: string, userId: string, isActive: bool, weeks: seq<WeekRecord>)

  /** Records created so far and the definition table they leave. */
  datatype Imported<R> = Imported(records: seq<R>, table: Table)

  /** The exercise loop: match each exercise's definition, in order, then
      create its record and its sets. */
  function ExerciseRecords(es: seq<StructuredExercise>, t: Table, userId: string): Imported<ExerciseRecord> {
    if es == [] then Imported([], t)
    else
      var before := ExerciseRecords(es[..|es| - 1], t, userId);
      var e := es[|es| - 1];
      var m := Match(before.table, e.name, userId);
      Imported(before.records + [ExerciseRecord(e.name, m.id, e.order, e.exerciseGroup, e.notes, e.prescribedSets)], m.table)
  }

  /** The workout loop. */
  function WorkoutRecords(ws: seq<StructuredWorkout>, t: Table, userId: string): Imported<WorkoutRecord> {
    if ws == [] then Imported([], t)
    else
      var before := WorkoutRecords(ws[..|ws| - 1], t, userId);
      var w := ws[|ws| - 1];
      var inner := ExerciseRecords(w.exercises, before.table, userId);
      Imported(before.records + [WorkoutRecord(w.name, w.dayNumber, inner.records)], inner.table)
  }

  /** The week loop. */
  function WeekRecords(weeks: seq<StructuredWeek>, t: Table, userId: string): Imported<WeekRecord> {
    if weeks == [] then Imported([], t)
    else
      var before := WeekRecords(weeks[..|weeks| - 1], t, userId);
      var w := weeks[|weeks| - 1];
      var inner := WorkoutRecords(w.workouts, before.table, userId);
      Imported(before.records + [WeekRecord(w.weekNumber, inner.records)], inner.table)
  }

  /** `updateMany({ where: { userId, isActive: true }, data: { isActive: false } })`. */
  function Deactivated(p: ProgramRecord, userId: string): ProgramRecord {
    if p.userId == userId && p.isActive then p.(isActive := false) else p
  }

  function Deactivate(programs: seq<ProgramRecord>, userId: string): seq<ProgramRecord> {
    Map(programs, p => Deactivated(p, userId))
  }

  /** No user has two active programs. */
  predicate OneActivePerUser(programs: seq<ProgramRecord>) {
    forall i, j :: 0 <= i < j < |programs| && programs[i].isActive && programs[j].isActive ==>
      programs[i].userId != programs[j].userId
  }

  // --------------------------------------------------------------- database

  class Database {
    var definitions: seq<Definition>
    var programs: seq<ProgramRecord>
    var nextId: nat

    function DefinitionTable(): Table
      reads this
    {
      Table(definitions, nextId)
    }

    /** Ids below the counter are taken, and no user has two active
        programs. */
    predicate Valid()
      reads this
    {
      FreshIds(DefinitionTable())
      && (forall i :: 0 <= i < |programs| ==> programs[i].id < nextId)
      && OneActivePerUser(programs)
    }

    /** A database holding the given definitions and no programs. */
    constructor (seed: Table)
      requires FreshIds(seed)
      ensures Valid()
      ensures DefinitionTable() == seed && programs == []
    {
      definitions := seed.defs;
      nextId := seed.nextId;
      programs := [];
    }

    /** matchExerciseDefinition. */
    method MatchExerciseDefinition(exerciseName: string, userId: string) returns (id: nat)
      requires Valid()
      modifies this
      ensures Valid()
      ensures Match(old(DefinitionTable()), exerciseName, userId) == Matched(id, DefinitionTable())
      ensures programs == old(programs)
    {
      var normalized := Normalize(exerciseName);
      var found := Find(definitions, ByName(normalized));
      if found.None? {
        found := Find(definitions, ByAlias(normalized));
      }
      if found.Some? {
        id := definitions[found.value].id;
      } else {
        id := nextId;
        definitions := definitions + [Definition(nextId, exerciseName, normalized, [], false, Some(userId))];
        nextId := nextId + 1;
      }
      MatchResolves(old(DefinitionTable()), exerciseName, userId);
    }

    /** The exercise loop of one workout. */
    method ImportExercises(es: seq<StructuredExercise>, userId: string) returns (records: seq<ExerciseRecord>)
      requires Valid()
      modifies this
      ensures Valid()
      ensures ExerciseRecords(es, old(DefinitionTable()), userId) == Imported(records, DefinitionTable())
      ensures programs == old(programs)
    {
      records := [];
      for i := 0 to |es|
        invariant Valid() && programs == old(programs)
        invariant ExerciseRecords(es[..i], old(DefinitionTable()), userId) == Imported(records, DefinitionTable())
      {
        assert es[..i + 1][..i] == es[..i];
        var exercise := es[i];
        var definitionId := MatchExerciseDefinition(exercise.name, userId);
        records := records + [ExerciseRecord(exercise.name, definitionId, exercise.order, exercise.exerciseGroup, exercise.notes, exercise.prescribedSets)];
      }
      assert es[..|es|] == es;
    }

    /** The workout loop of one week. */
    method ImportWorkouts(ws: seq<StructuredWorkout>, userId: string) returns (records: seq<WorkoutRecord>)
      requires Valid()
      modifies this
      ensures Valid()
      ensures WorkoutRecords(ws, old(DefinitionTable()), userId) == Imported(records, DefinitionTable())
      ensures programs == old(programs)
    {
      records := [];
      for i := 0 to |ws|
        invariant Valid() && programs == old(programs)
        invariant WorkoutRecords(ws[..i], old(DefinitionTable()), userId) == Imported(records, DefinitionTable())
      {
        assert ws[..i + 1][..i] == ws[..i];
        var workout := ws[i];
        var exercises := ImportExercises(workout.exercises, userId);
        records := records + [WorkoutRecord(workout.name, workout.dayNumber, exercises)];
      }
      assert ws[..|ws|] == ws;
    }

    /** The week loop of the program. */
    method ImportWeeks(weeks: seq<StructuredWeek>, userId: string) returns (records: seq<WeekRecord>)
      requires Valid()
      modifies this
      ensures Valid()
      ensures WeekRecords(weeks, old(DefinitionTable()), userId) == Imported(records, DefinitionTable())
      ensures programs == old(programs)
    {
      records := [];
      for i := 0 to |weeks|
        invariant Valid() && programs == old(programs)
        invariant WeekRecords(weeks[..i], old(DefinitionTable()), userId) == Imported(records, DefinitionTable())
      {
        assert weeks[..i + 1][..i] == weeks[..i];
        var week := weeks[i];
        var workouts := ImportWorkouts(week.workouts, userId);
        records := records + [WeekRecord(week.weekNumber, workouts)];
      }
      assert weeks[..|weeks|] == weeks;
    }

    /** importProgramToDatabase: deactivate the user's active programs,
        create the new active program, then its weeks, workouts, exercises
        and sets. */
    method ImportProgramToDatabase<D>(program: StructuredProgram<D>, userId: string) returns (programId: nat)
      requires Valid()
      modifies this
      ensures Valid()
      ensures programId == old(nextId)
      ensures var r := WeekRecords(program.weeks, Table(old(definitions), old(nextId) + 1), userId);
        && programs == Deactivate(old(programs), userId) + [ProgramRecord(programId, program.metadata.name, userId, true, r.records)]
        && DefinitionTable() == r.table
    ensures forall i :: 0 <= i < |programs| && programs[i].userId == userId && programs[i].isActive ==>
      programs[i].id == programId
    {
      DeactivateKeepsOne(programs, userId);
      programs := Deactivate(programs, userId);
      programId := nextId;
      nextId := nextId + 1;
      var created := ProgramRecord(programId, program.metadata.name, userId, true, []);
      OnlyNewActive(programs, userId, created);
      programs := programs + [created];
      var weeks := ImportWeeks(program.weeks, userId);
      OnlyNewActive(programs[..|programs| - 1], userId, created.(weeks := weeks));
      programs := programs[|programs| - 1 := created.(weeks := weeks)];
    }
  }

  // ------------------------------------------------------------- properties

  /** Deactivating keeps every field but the flag, clears it exactly on the
      user's programs, and leaves the user with no active program. */
  lemma DeactivateEffect(programs: seq<ProgramRecord>, userId: string)
    ensures var ps := Deactivate(programs, userId);
      && |ps| == |programs|
      && (forall i :: 0 <= i < |ps| ==>
            ps[i] == programs[i].(isActive := programs[i].isActive && programs[i].userId != userId))
      && (forall i :: 0 <= i < |ps| && ps[i].userId == userId ==> !ps[i].isActive)
  {
  }

  lemma DeactivateKeepsOne(programs: seq<ProgramRecord>, userId: string)
    requires OneActivePerUser(programs)
    ensures OneActivePerUser(Deactivate(programs, userId))
  {
    DeactivateEffect(programs, userId);
  }

  /** After the import the new program is the user's only active one, and
      no user has two active programs. */
  lemma OnlyNewActive(deactivated: seq<ProgramRecord>, userId: string, created: ProgramRecord)
    requires forall i :: 0 <= i < |deactivated| && deactivated[i].userId == userId ==> !deactivated[i].isActive
    requires OneActivePerUser(deactivated)
    requires created.userId == userId
    ensures var ps := deactivated + [created];
      && OneActivePerUser(ps)
      && forall i :: 0 <= i < |ps| && ps[i].userId == userId && ps[i].isActive ==> i == |deactivated|
  {
  }

  function EraseExercise(r: ExerciseRecord): StructuredExercise {
    StructuredExercise(r.name, r.order, r.exerciseGroup, r.notes, r.sets)
  }

  function EraseWorkout(r: WorkoutRecord): StructuredWorkout {
    StructuredWorkout(r.name, r.dayNumber, Map(r.exercises, EraseExercise))
  }

  /** A week record without the definition ids: the structured week it came
      from. */
  function EraseWeek(r: WeekRecord): StructuredWeek {
    StructuredWeek(r.weekNumber, Map(r.workouts, EraseWorkout))
  }

  lemma {:induction false} ExerciseRecordsCopy(es: seq<StructuredExercise>, t: Table, userId: string)
    ensures Map(ExerciseRecords(es, t, userId).records, EraseExercise) == es
  {
    if es != [] {
      var n := |es| - 1;
      ExerciseRecordsCopy(es[..n], t, userId);
      var before := ExerciseRecords(es[..n], t, userId);
      var e := es[n];
      var m := Match(before.table, e.name, userId);
      var last := [ExerciseRecord(e.name, m.id, e.order, e.exerciseGroup, e.notes, e.prescribedSets)];
      assert Map(ExerciseRecords(es, t, userId).records, EraseExercise) == Map(before.records, EraseExercise) + Map(last, EraseExercise) by {
        assert ExerciseRecords(es, t, userId).records == before.records + last;
        MapConcat(before.records, last, EraseExercise);
      }
      assert Map(last, EraseExercise) == [e];
      LastSplit(es);
    }
  }

  lemma {:induction false} WorkoutRecordsCopy(ws: seq<StructuredWorkout>, t: Table, userId: string)
    ensures Map(WorkoutRecords(ws, t, userId).records, EraseWorkout) == ws
  {
    if ws != [] {
      var n := |ws| - 1;
      WorkoutRecordsCopy(ws[..n], t, userId);
      var before := WorkoutRecords(ws[..n], t, userId);
      ExerciseRecordsCopy(ws[n].exercises, before.table, userId);
      var inner := ExerciseRecords(ws[n].exercises, before.table, userId);
      var last := [WorkoutRecord(ws[n].name, ws[n].dayNumber, inner.records)];
      assert WorkoutRecords(ws, t, userId).records == before.records + last;
      assert Map(last, EraseWorkout) == [ws[n]];
      MapConcat(before.records, last, EraseWorkout);
      assert ws == ws[..n] + [ws[n]];
    }
  }

  /** The import copies the structured program: every week, workout,
      exercise and set is created once, in order, with the values it had;
      only the definition ids are added. */
  lemma {:induction false} WeekRecordsCopy(weeks: seq<StructuredWeek>, t: Table, userId: string)
    ensures Map(WeekRecords(weeks, t, userId).records, EraseWeek) == weeks
  {
    if weeks != [] {
      var n := |weeks| - 1;
      WeekRecordsCopy(weeks[..n], t, userId);
      var before := WeekRecords(weeks[..n], t, userId);
      WorkoutRecordsCopy(weeks[n].workouts, before.table, userId);
      var last := WeekRecords(weeks, t, userId).records[n..];
      assert WeekRecords(weeks, t, userId).records == before.records + last;
      MapConcat(before.records, last, EraseWeek);
      assert weeks == weeks[..n] + [weeks[n]];
    }
  }

  /** An exercise record's definition is in the table and matches its
      name. */
  predicate Resolved(r: ExerciseRecord, t: Table) {
    exists i :: 0 <= i < |t.defs| && t.defs[i].id == r.definitionId && Matches(t.defs[i], r.name)
  }

  predicate ExercisesResolved(rs: seq<ExerciseRecord>, t: Table) {
    forall k :: 0 <= k < |rs| ==> Resolved(rs[k], t)
  }

  predicate WorkoutsResolved(rs: seq<WorkoutRecord>, t: Table) {
    forall k :: 0 <= k < |rs| ==> ExercisesResolved(rs[k].exercises, t)
  }

  predicate WeeksResolved(rs: seq<WeekRecord>, t: Table) {
    forall k :: 0 <= k < |rs| ==> WorkoutsResolved(rs[k].workouts, t)
  }

  lemma ResolvedGrows(rs: seq<ExerciseRecord>, a: Table, b: Table)
    requires ExercisesResolved(rs, a) && Grows(a, b)
    ensures ExercisesResolved(rs, b)
  {
    forall k | 0 <= k < |rs| ensures Resolved(rs[k], b) {
      var i :| 0 <= i < |a.defs| && a.defs[i].id == rs[k].definitionId && Matches(a.defs[i], rs[k].name);
      assert b.defs[i] == b.defs[..|a.defs|][i];
    }
  }

  lemma {:induction false} ExerciseRecordsResolve(es: seq<StructuredExercise>, t: Table, userId: string)
    ensures var r := ExerciseRecords(es, t, userId);
      Grows(t, r.table) && ExercisesResolved(r.records, r.table) && (FreshIds(t) ==> FreshIds(r.table))
  {
    if es != [] {
      var n := |es| - 1;
      ExerciseRecordsResolve(es[..n], t, userId);
      var before := ExerciseRecords(es[..n], t, userId);
      MatchResolves(before.table, es[n].name, userId);
      var m := Match(before.table, es[n].name, userId);
      GrowsTrans(t, before.table, m.table);
      ResolvedGrows(before.records, before.table, m.table);
    }
  }

  lemma {:induction false} WorkoutRecordsResolve(ws: seq<StructuredWorkout>, t: Table, userId: string)
    ensures var r := WorkoutRecords(ws, t, userId);
      Grows(t, r.table) && WorkoutsResolved(r.records, r.table) && (FreshIds(t) ==> FreshIds(r.table))
  {
    if ws != [] {
      var n := |ws| - 1;
      WorkoutRecordsResolve(ws[..n], t, userId);
      var before := WorkoutRecords(ws[..n], t, userId);
      ExerciseRecordsResolve(ws[n].exercises, before.table, userId);
      var inner := ExerciseRecords(ws[n].exercises, before.table, userId);
      GrowsTrans(t, before.table, inner.table);
      forall k | 0 <= k < |before.records| ensures ExercisesResolved(before.records[k].exercises, inner.table) {
        ResolvedGrows(before.records[k].exercises, before.table, inner.table);
      }
    }
  }

  /** Every exercise record of the import links to a definition of the
      final table that matches its name, and the table only grows. */
  lemma {:induction false} WeekRecordsResolve(weeks: seq<StructuredWeek>, t: Table, userId: string)
    ensures var r := WeekRecords(weeks, t, userId);
      Grows(t, r.table) && WeeksResolved(r.records, r.table) && (FreshIds(t) ==> FreshIds(r.table))
  {
    if weeks != [] {
      var n := |weeks| - 1;
      WeekRecordsResolve(weeks[..n], t, userId);
      var before := WeekRecords(weeks[..n], t, userId);
      WorkoutRecordsResolve(weeks[n].workouts, before.table, userId);
      var inner := WorkoutRecords(weeks[n].workouts, before.table, userId);
      GrowsTrans(t, before.table, inner.table);
      forall k, j | 0 <= k < |before.records| && 0 <= j < |before.records[k].workouts|
        ensures ExercisesResolved(before.records[k].workouts[j].exercises, inner.table)
      {
        ResolvedGrows(before.records[k].workouts[j].exercises, before.table, inner.table);
      }
    }
  }
}
