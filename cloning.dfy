/** cloud-functions/clone-program/src/cloning.ts: the background cloner
    that copies a program template, one week per database transaction, into
    a shell program that already exists. It writes a progress status before
    each week and `ready` at the end. The database is a `ProgramStore`: the
    copyStatus of each program row, the committed weeks, and a journal of
    the writes in the order they happened. A week's transaction is all or
    nothing, and whether the database rejects it is a parameter. */
module Cloning {
  import opened Wrappers
  import opened Text
  import opened Collections

  // ------------------------------------------------------------- the job

  datatype SetData = SetData(
    setNumber: int,
    reps: string,
    weight: Option<string>,
    rpe: Option<int>,
    rir: Option<int>)

  datatype ExerciseData = ExerciseData(
    name: string,
    exerciseDefinitionId: string,
    order: int,
    exerciseGroup: Option<string>,
    notes: Option<string>,
    prescribedSets: Option<seq<SetData>>)

  datatype WorkoutData = WorkoutData(name: string, dayNumber: int, exercises: seq<ExerciseData>)

  datatype SessionData = SessionData(
    dayNumber: int,
    name: string,
    description: Option<string>,
    targetDuration: int,
    intensityZone: Option<string>,
    equipment: Option<string>,
    targetHRRange: Option<string>,
    targetPowerRange: Option<string>,
    intervalStructure: Option<string>,
    notes: Option<string>)

  /** A template week; a strength week lists workouts and a cardio week
      sessions, and either list may be missing. */
  datatype WeekData = WeekData(
    weekNumber: int,
    workouts: Option<seq<WorkoutData>>,
    sessions: Option<seq<SessionData>>)

  /** `ProgramCloneJob`. `weeks` is `programData.weeks`, which a malformed
      message may lack. */
  datatype Job = Job(programId: string, userId: string, weeks: Option<seq<WeekData>>, programType: string)

  // ------------------------------------------------------------- the rows

  datatype SetRow = SetRow(
    setNumber: int,
    reps: string,
    weight: Option<string>,
    rpe: Option<int>,
    rir: Option<int>,
    userId: string)

  datatype ExerciseRow = ExerciseRow(
    name: string,
    exerciseDefinitionId: string,
    order: int,
    exerciseGroup: Option<string>,
    userId: string,
    notes: Option<string>,
    prescribedSets: seq<SetRow>)

  datatype WorkoutRow = WorkoutRow(name: string, dayNumber: int, userId: string, exercises: seq<ExerciseRow>)

  datatype WeekRow = WeekRow(weekNumber: int, programId: string, userId: string, workouts: seq<WorkoutRow>)

  datatype SessionRow = SessionRow(
    dayNumber: int,
    name: string,
    description: Option<string>,
    targetDuration: int,
    intensityZone: Option<string>,
    equipment: Option<string>,
    targetHRRange: Option<string>,
    targetPowerRange: Option<string>,
    intervalStructure: Option<string>,
    notes: Option<string>,
    userId: string)

  datatype CardioWeekRow = CardioWeekRow(weekNumber: int, cardioProgramId: string, userId: string, sessions: seq<SessionRow>)

  // ------------------------------------------------- the nested creates

  function SetRowOf(userId: string, s: SetData): SetRow {
    SetRow(s.setNumber, s.reps, s.weight, s.rpe, s.rir, userId)
  }

  /** One exercise of the nested create; `prescribedSets || []`. */
  function ExerciseRowOf(userId: string, e: ExerciseData): ExerciseRow {
    ExerciseRow(e.name, e.exerciseDefinitionId, e.order, e.exerciseGroup, userId, e.notes,
      Map(e.prescribedSets.GetOr([]), s => SetRowOf(userId, s)))
  }

  function WorkoutRowOf(userId: string, w: WorkoutData): WorkoutRow {
    WorkoutRow(w.name, w.dayNumber, userId, Map(w.exercises, e => ExerciseRowOf(userId, e)))
  }

  /** The week subtree one strength transaction creates; `workouts || []`. */
  function StrengthWeek(job: Job, w: WeekData): WeekRow {
    WeekRow(w.weekNumber, job.programId, job.userId,
      Map(w.workouts.GetOr([]), wo => WorkoutRowOf(job.userId, wo)))
  }

  function SessionRowOf(userId: string, s: SessionData): SessionRow {
    SessionRow(s.dayNumber, s.name, s.description, s.targetDuration, s.intensityZone, s.equipment,
      s.targetHRRange, s.targetPowerRange, s.intervalStructure, s.notes, userId)
  }

  /** The week subtree one cardio transaction creates; `sessions || []`. */
  function CardioWeek(job: Job, w: WeekData): CardioWeekRow {
    CardioWeekRow(w.weekNumber, job.programId, job.userId,
      Map(w.sessions.GetOr([]), s => SessionRowOf(job.userId, s)))
  }

  // -------------------------------------- reading a subtree back as data

  function SetDataOf(r: SetRow): SetData {
    SetData(r.setNumber, r.reps, r.weight, r.rpe, r.rir)
  }

  function ExerciseDataOf(r: ExerciseRow): ExerciseData {
    ExerciseData(r.name, r.exerciseDefinitionId, r.order, r.exerciseGroup, r.notes,
      Some(Map(r.prescribedSets, SetDataOf)))
  }

  function WorkoutDataOf(r: WorkoutRow): WorkoutData {
    WorkoutData(r.name, r.dayNumber, Map(r.exercises, ExerciseDataOf))
  }

  function SessionDataOf(r: SessionRow): SessionData {
    SessionData(r.dayNumber, r.name, r.description, r.targetDuration, r.intensityZone, r.equipment,
      r.targetHRRange, r.targetPowerRange, r.intervalStructure, r.notes)
  }

  /** The template with every missing list read as the empty list. */
  function FillExercise(e: ExerciseData): ExerciseData {
    e.(prescribedSets := Some(e.prescribedSets.GetOr([])))
  }

  function FillWorkout(w: WorkoutData): WorkoutData {
    w.(exercises := Map(w.exercises, FillExercise))
  }

  /** An exercise row holds the template exercise's fields, and a missing
      set list becomes no sets. */
  lemma ExerciseCopied(userId: string, e: ExerciseData)
    ensures ExerciseDataOf(ExerciseRowOf(userId, e)) == FillExercise(e)
    ensures e.prescribedSets == None ==> ExerciseRowOf(userId, e).prescribedSets == []
  {
    var sets := e.prescribedSets.GetOr([]);
    assert Map(Map(sets, s => SetRowOf(userId, s)), SetDataOf) == sets;
  }

  /** A workout row holds the template workout, exercise by exercise. */
  lemma WorkoutCopied(userId: string, w: WorkoutData)
    ensures WorkoutDataOf(WorkoutRowOf(userId, w)) == FillWorkout(w)
  {
    var rows := Map(w.exercises, e => ExerciseRowOf(userId, e));
    forall j | 0 <= j < |w.exercises|
      ensures ExerciseDataOf(rows[j]) == FillExercise(w.exercises[j])
    {
      ExerciseCopied(userId, w.exercises[j]);
    }
    assert Map(rows, ExerciseDataOf) == Map(w.exercises, FillExercise);
  }

  /** A strength week row keeps the template's week number, belongs to the
      job's program, and holds the template's workouts in order; a missing
      workout list becomes no workouts. */
  lemma StrengthWeekCopied(job: Job, w: WeekData)
    ensures StrengthWeek(job, w).weekNumber == w.weekNumber
    ensures StrengthWeek(job, w).programId == job.programId
    ensures Map(StrengthWeek(job, w).workouts, WorkoutDataOf) == Map(w.workouts.GetOr([]), FillWorkout)
    ensures w.workouts == None ==> StrengthWeek(job, w).workouts == []
  {
    var ws := w.workouts.GetOr([]);
    var rows := StrengthWeek(job, w).workouts;
    forall j | 0 <= j < |ws|
      ensures WorkoutDataOf(rows[j]) == FillWorkout(ws[j])
    {
      WorkoutCopied(job.userId, ws[j]);
    }
  }

  /** A cardio week row keeps the template's week number, belongs to the
      job's program, and holds the template's sessions in order; a missing
      session list becomes no sessions. */
  lemma CardioWeekCopied(job: Job, w: WeekData)
    ensures CardioWeek(job, w).weekNumber == w.weekNumber
    ensures CardioWeek(job, w).cardioProgramId == job.programId
    ensures Map(CardioWeek(job, w).sessions, SessionDataOf) == w.sessions.GetOr([])
    ensures w.sessions == None ==> CardioWeek(job, w).sessions == []
  {
  }

  // ------------------------------------------------------------ ownership

  predicate ExerciseOwned(e: ExerciseRow, userId: string) {
    e.userId == userId && forall k :: 0 <= k < |e.prescribedSets| ==> e.prescribedSets[k].userId == userId
  }

  predicate WorkoutOwned(w: WorkoutRow, userId: string) {
    w.userId == userId && forall k :: 0 <= k < |w.exercises| ==> ExerciseOwned(w.exercises[k], userId)
  }

  /** The week and every workout, exercise and set under it carry the user. */
  predicate WeekOwned(w: WeekRow, userId: string) {
    w.userId == userId && forall k :: 0 <= k < |w.workouts| ==> WorkoutOwned(w.workouts[k], userId)
  }

  predicate CardioWeekOwned(w: CardioWeekRow, userId: string) {
    w.userId == userId && forall k :: 0 <= k < |w.sessions| ==> w.sessions[k].userId == userId
  }

  /** Every row of a strength week subtree carries the job's user. */
  lemma StrengthWeekOwned(job: Job, w: WeekData)
    ensures WeekOwned(StrengthWeek(job, w), job.userId)
  {
    var rows := StrengthWeek(job, w).workouts;
    forall k | 0 <= k < |rows|
      ensures WorkoutOwned(rows[k], job.userId)
    {
      var wo := w.workouts.GetOr([])[k];
      assert rows[k] == WorkoutRowOf(job.userId, wo);
      forall m | 0 <= m < |rows[k].exercises|
        ensures ExerciseOwned(rows[k].exercises[m], job.userId)
      {
        assert rows[k].exercises[m] == ExerciseRowOf(job.userId, wo.exercises[m]);
      }
    }
  }

  /** Every row of a cardio week subtree carries the job's user. */
  lemma CardioSessionsOwned(job: Job, w: WeekData)
    ensures CardioWeekOwned(CardioWeek(job, w), job.userId)
  {
  }

  // ----------------------------------------------------------- the store

  /** One write the cloner makes, in journal order. */
  datatype Event<W> = StatusSet(id: string, status: string) | WeekCreated(week: W)

  /** A program table (`program` or `cardioProgram`) with its week table.
      `copyStatus` has one entry per existing program row. */
  class ProgramStore<W> {
    var copyStatus: map<string, string>
    var weeks: seq<W>
    var journal: seq<Event<W>>

    constructor(rows: map<string, string>)
      ensures copyStatus == rows && weeks == [] && journal == []
    {
      copyStatus := rows;
      weeks := [];
      journal := [];
    }

    /** `update({ where: { id }, data: { copyStatus } })`; updating a row that
        does not exist throws, which is `ok == false`. */
    method UpdateStatus(id: string, status: string) returns (ok: bool)
      modifies this
      ensures ok == (id in old(copyStatus))
      ensures copyStatus == (if ok then old(copyStatus)[id := status] else old(copyStatus))
      ensures weeks == old(weeks)
      ensures journal == old(journal) + (if ok then [StatusSet(id, status)] else [])
    {
      ok := id in copyStatus;
      if ok {
        copyStatus := copyStatus[id := status];
        journal := journal + [StatusSet(id, status)];
      }
    }

    /** One week's `$transaction`: the subtree is committed whole, or, when
        the database rejects the transaction, not at all. */
    method CreateWeek(week: W, rejected: bool) returns (ok: bool)
      modifies this
      ensures ok == !rejected
      ensures copyStatus == old(copyStatus)
      ensures weeks == old(weeks) + (if ok then [week] else [])
      ensures journal == old(journal) + (if ok then [WeekCreated(week)] else [])
    {
      ok := !rejected;
      if ok {
        weeks := weeks + [week];
        journal := journal + [WeekCreated(week)];
      }
    }
  }

  // ------------------------------------------------- what a run writes

  const Ready := "ready"

  /** The progress status `cloning_week_<i+1>_of_<n>` for week index i. */
  function Heartbeat(i: nat, n: nat): string {
    "cloning_week_" + NatToString(i + 1) + "_of_" + NatToString(n)
  }

  /** The writes for the first k weeks: each week's status, then its
      subtree. */
  function Steps<W>(id: string, weeks: seq<W>, k: nat): seq<Event<W>>
    requires k <= |weeks|
  {
    if k == 0 then []
    else Steps(id, weeks, k - 1) + [StatusSet(id, Heartbeat(k - 1, |weeks|)), WeekCreated(weeks[k - 1])]
  }

  /** The outcome of one cloner run: its writes, and whether it returned
      normally. */
  datatype Run<W> = Run(events: seq<Event<W>>, ok: bool)

  /** A run over the week subtrees `weeks` into the program row `id`, which
      exists when `present`; `fault` is the index of the first week whose
      transaction the database rejects. A missing row makes the first status
      update throw; a rejected week stops the run after its status. */
  function Clone<W>(present: bool, id: string, weeks: seq<W>, fault: Option<nat>): Run<W> {
    if !present then Run([], false)
    else if fault.Some? && fault.value < |weeks| then
      Run(Steps(id, weeks, fault.value) + [StatusSet(id, Heartbeat(fault.value, |weeks|))], false)
    else Run(Steps(id, weeks, |weeks|) + [StatusSet(id, Ready)], true)
  }

  /** The committed week subtrees among some writes, in order. */
  function Created<W>(events: seq<Event<W>>): seq<W> {
    if events == [] then []
    else
      var e := events[|events| - 1];
      Created(events[..|events| - 1]) + (if e.WeekCreated? then [e.week] else [])
  }

  /** The status the last write for row `id` left, if any. */
  function LastStatus<W>(events: seq<Event<W>>, id: string): Option<string> {
    if events == [] then None
    else if events[|events| - 1].StatusSet? && events[|events| - 1].id == id then Some(events[|events| - 1].status)
    else LastStatus(events[..|events| - 1], id)
  }

  /** The status map after some writes. */
  function ApplyStatus<W>(rows: map<string, string>, events: seq<Event<W>>): map<string, string> {
    if events == [] then rows
    else
      var e := events[|events| - 1];
      var before := ApplyStatus(rows, events[..|events| - 1]);
      if e.StatusSet? then before[e.id := e.status] else before
  }

  // ----------------------------------------------------------- properties

  lemma CreatedConcat<W>(a: seq<Event<W>>, b: seq<Event<W>>)
    ensures Created(a + b) == Created(a) + Created(b)
    decreases |b|
  {
    if b != [] {
      assert (a + b)[..|a + b| - 1] == a + b[..|b| - 1];
      CreatedConcat(a, b[..|b| - 1]);
    } else {
      assert a + b == a;
    }
  }

  /** In the first k weeks' writes, week i's status comes right before its
      subtree. */
  lemma {:induction false} StepsShape<W>(id: string, weeks: seq<W>, k: nat)
    requires k <= |weeks|
    ensures |Steps(id, weeks, k)| == 2 * k
    ensures forall i :: 0 <= i < k ==>
      Steps(id, weeks, k)[2 * i] == StatusSet(id, Heartbeat(i, |weeks|))
      && Steps(id, weeks, k)[2 * i + 1] == WeekCreated(weeks[i])
  {
    if k > 0 {
      StepsShape(id, weeks, k - 1);
    }
  }

  /** The subtrees the first k weeks' writes commit are those weeks, in
      order. */
  lemma {:induction false} StepsCreated<W>(id: string, weeks: seq<W>, k: nat)
    requires k <= |weeks|
    ensures Created(Steps(id, weeks, k)) == weeks[..k]
  {
    if k > 0 {
      StepsCreated(id, weeks, k - 1);
      var before := Steps(id, weeks, k - 1);
      var hb := StatusSet(id, Heartbeat(k - 1, |weeks|));
      assert Created(Steps(id, weeks, k)) == Created(before) + [weeks[k - 1]] by {
        assert Steps(id, weeks, k) == (before + [hb]) + [WeekCreated(weeks[k - 1])];
        CreatedSnoc(before, hb);
        CreatedSnoc(before + [hb], WeekCreated(weeks[k - 1]));
      }
      PrefixSnoc(weeks, k - 1);
    }
  }

  /** Every status written, when it is not `ready`, is some week's
      heartbeat. */
  lemma {:induction false} StepsStatuses<W>(id: string, weeks: seq<W>, k: nat)
    requires k <= |weeks|
    ensures forall e :: e in Steps(id, weeks, k) && e.StatusSet? ==>
      e.id == id && exists i :: 0 <= i < k && e.status == Heartbeat(i, |weeks|)
  {
    if k > 0 {
      StepsStatuses(id, weeks, k - 1);
      forall e | e in Steps(id, weeks, k) && e.StatusSet?
        ensures e.id == id && exists i :: 0 <= i < k && e.status == Heartbeat(i, |weeks|)
      {
        if e == StatusSet(id, Heartbeat(k - 1, |weeks|)) {
          assert e.status == Heartbeat(k - 1, |weeks|);
        } else {
          assert e in Steps(id, weeks, k - 1);
        }
      }
    }
  }

  /** A heartbeat is never the final `ready` status. */
  lemma HeartbeatNotReady(i: nat, n: nat)
    ensures Heartbeat(i, n) != Ready
  {
    assert Heartbeat(i, n)[0] == 'c';
  }

  /** Distinct week positions, or distinct week counts, give distinct
      heartbeats. */
  lemma HeartbeatInjective(i: nat, n: nat, j: nat, m: nat)
    ensures Heartbeat(i, n) == Heartbeat(j, m) <==> i == j && n == m
  {
    if Heartbeat(i, n) == Heartbeat(j, m) {
      var a1, b1 := HeartbeatParts(i, n);
      var a2, b2 := HeartbeatParts(j, m);
      SplitFirst(a1, '_', b1, a2, b2);
      NatToStringInjective(i + 1, j + 1);
      assert NatToString(n) == b1[3..] && NatToString(m) == b2[3..];
      NatToStringInjective(n, m);
    }
  }

  /** After the fixed 13-character prefix a heartbeat is the week position,
      an underscore, and the rest. */
  lemma HeartbeatParts(i: nat, n: nat) returns (a: string, b: string)
    ensures a == NatToString(i + 1) && b == "of_" + NatToString(n)
    ensures '_' !in a
    ensures Heartbeat(i, n)[13..] == a + ['_'] + b
  {
    a, b := NatToString(i + 1), "of_" + NatToString(n);
    DigitsLack(a, '_');
    assert Heartbeat(i, n) == "cloning_week_" + (a + ['_'] + b) by {
      assert "_of_" + NatToString(n) == ['_'] + b;
    }
  }

  /** The last status write for a row is the last element of its writes. */
  lemma LastStatusSnoc<W>(events: seq<Event<W>>, id: string, status: string)
    ensures LastStatus(events + [StatusSet(id, status)], id) == Some(status)
  {
    assert (events + [StatusSet(id, status)])[..|events|] == events;
  }

  /** A run that meets no rejection commits all n week subtrees in template
      order, each after its own heartbeat, and ends with `ready`. */
  lemma CloneSucceeds<W>(id: string, weeks: seq<W>, fault: Option<nat>)
    requires fault.None? || fault.value >= |weeks|
    ensures var r := Clone(true, id, weeks, fault);
      && r.ok
      && |r.events| == 2 * |weeks| + 1
      && Created(r.events) == weeks
      && (forall i :: 0 <= i < |weeks| ==>
            r.events[2 * i] == StatusSet(id, Heartbeat(i, |weeks|)) && r.events[2 * i + 1] == WeekCreated(weeks[i]))
      && r.events[2 * |weeks|] == StatusSet(id, Ready)
      && LastStatus(r.events, id) == Some(Ready)
  {
    var s := Steps(id, weeks, |weeks|);
    var last: seq<Event<W>> := [StatusSet(id, Ready)];
    StepsShape(id, weeks, |weeks|);
    StepsCreated(id, weeks, |weeks|);
    CreatedConcat(s, last);
    assert Created(last) == [] by {
      assert last[..0] == [];
    }
    assert weeks[..|weeks|] == weeks;
    LastStatusSnoc(s, id, Ready);
  }

  /** With no weeks the only write is `ready`, whatever the fault. */
  lemma CloneNoWeeks<W>(id: string, fault: Option<nat>)
    ensures Clone<W>(true, id, [], fault) == Run([StatusSet(id, Ready)], true)
  {
  }

  /** When week k's transaction is rejected, weeks 0..k-1 stay committed,
      the status is left at week k's heartbeat, and `ready` is never
      written. */
  lemma CloneFails<W>(id: string, weeks: seq<W>, k: nat)
    requires k < |weeks|
    ensures var r := Clone(true, id, weeks, Some(k));
      && !r.ok
      && Created(r.events) == weeks[..k]
      && LastStatus(r.events, id) == Some(Heartbeat(k, |weeks|))
      && forall e :: e in r.events ==> e != StatusSet(id, Ready)
  {
    var s := Steps(id, weeks, k);
    var hb := StatusSet(id, Heartbeat(k, |weeks|));
    StepsCreated(id, weeks, k);
    CreatedConcat(s, [hb]);
    assert Created([hb]) == [] by {
      assert [hb][..0] == [];
    }
    LastStatusSnoc(s, id, Heartbeat(k, |weeks|));
    StepsStatuses(id, weeks, k);
    HeartbeatNotReady(k, |weeks|);
    forall e | e in s + [hb]
      ensures e != StatusSet(id, Ready)
    {
      if e in s && e.StatusSet? {
        var i :| 0 <= i < k && e.status == Heartbeat(i, |weeks|);
        HeartbeatNotReady(i, |weeks|);
      }
    }
  }

  /** Without the program row nothing is written. */
  lemma CloneMissingRow<W>(id: string, weeks: seq<W>, fault: Option<nat>)
    ensures Clone(false, id, weeks, fault) == Run([], false)
  {
  }

  /** The writes of a run touch only the row `id`. */
  lemma {:induction false} CloneOneRow<W>(present: bool, id: string, weeks: seq<W>, fault: Option<nat>)
    ensures forall e :: e in Clone(present, id, weeks, fault).events && e.StatusSet? ==> e.id == id
  {
    var n := |weeks|;
    if present {
      var k := if fault.Some? && fault.value < n then fault.value else n;
      StepsStatuses(id, weeks, k);
    }
  }

  // ------------------------------------------------------------- cloners

  /** The strength subtrees a job's weeks turn into. */
  function StrengthWeeks(job: Job, weeks: seq<WeekData>): (rows: seq<WeekRow>)
    ensures |rows| == |weeks|
    ensures forall i :: 0 <= i < |weeks| ==> rows[i] == StrengthWeek(job, weeks[i])
  {
    Map(weeks, w => StrengthWeek(job, w))
  }

  /** Each week of a strength run keeps its template week number, and every
      row in it carries the job's user. */
  lemma StrengthWeeksOwned(job: Job, weeks: seq<WeekData>)
    ensures forall i :: 0 <= i < |weeks| ==>
      StrengthWeeks(job, weeks)[i].weekNumber == weeks[i].weekNumber && WeekOwned(StrengthWeeks(job, weeks)[i], job.userId)
  {
    forall i | 0 <= i < |weeks|
      ensures WeekOwned(StrengthWeeks(job, weeks)[i], job.userId)
    {
      StrengthWeekOwned(job, weeks[i]);
    }
  }

  /** The cardio subtrees a job's weeks turn into. */
  function CardioWeeks(job: Job, weeks: seq<WeekData>): (rows: seq<CardioWeekRow>)
    ensures |rows| == |weeks|
    ensures forall i :: 0 <= i < |weeks| ==> rows[i].weekNumber == weeks[i].weekNumber && CardioWeekOwned(rows[i], job.userId)
  {
    Map(weeks, w => CardioWeek(job, w))
  }

  /** A strength run for a job; without `programData.weeks` it throws
      before any write. */
  function StrengthRun(present: bool, job: Job, fault: Option<nat>): Run<WeekRow> {
    if job.weeks.None? then Run([], false)
    else Clone(present, job.programId, StrengthWeeks(job, job.weeks.value), fault)
  }

  /** A cardio run for a job. */
  function CardioRun(present: bool, job: Job, fault: Option<nat>): Run<CardioWeekRow> {
    if job.weeks.None? then Run([], false)
    else Clone(present, job.programId, CardioWeeks(job, job.weeks.value), fault)
  }

  /** `cloneStrengthProgramData`. */
  method CloneStrengthProgramData(store: ProgramStore<WeekRow>, job: Job, fault: Option<nat>) returns (ok: bool)
    modifies store
    ensures var r := StrengthRun(job.programId in old(store.copyStatus), job, fault);
      ok == r.ok && Reflects(store, old(store.journal), old(store.weeks), old(store.copyStatus), r.events)
    ensures store.copyStatus.Keys == old(store.copyStatus).Keys
  {
    if job.weeks.None? {
      return false;
    }
    var weeks := job.weeks.value;
    ok := CloneWeeks(store, job.programId, StrengthWeeks(job, weeks), fault);
  }

  /** `cloneCardioProgramData`: the same loop on the cardio tables. */
  method CloneCardioProgramData(store: ProgramStore<CardioWeekRow>, job: Job, fault: Option<nat>) returns (ok: bool)
    modifies store
    ensures var r := CardioRun(job.programId in old(store.copyStatus), job, fault);
      ok == r.ok && Reflects(store, old(store.journal), old(store.weeks), old(store.copyStatus), r.events)
    ensures store.copyStatus.Keys == old(store.copyStatus).Keys
  {
    if job.weeks.None? {
      return false;
    }
    var weeks := job.weeks.value;
    ok := CloneWeeks(store, job.programId, CardioWeeks(job, weeks), fault);
  }

  /** The loop both cloners share: for each week its heartbeat, then its
      transaction; then `ready`. Any failed write ends the run. */
  method CloneWeeks<W>(store: ProgramStore<W>, id: string, weeks: seq<W>, fault: Option<nat>) returns (ok: bool)
    modifies store
    ensures var r := Clone(id in old(store.copyStatus), id, weeks, fault);
      ok == r.ok && Reflects(store, old(store.journal), old(store.weeks), old(store.copyStatus), r.events)
    ensures store.copyStatus.Keys == old(store.copyStatus).Keys
  {
    var n := |weeks|;
    ghost var j0, w0, s0 := store.journal, store.weeks, store.copyStatus;
    ghost var present := id in store.copyStatus;
    for i := 0 to n
      invariant store.copyStatus.Keys == s0.Keys
      invariant present || i == 0
      invariant fault.None? || fault.value >= i
      invariant Reflects(store, j0, w0, s0, Steps(id, weeks, i))
    {
      var written, committed := CloneWeek(store, id, weeks, i, fault, j0, w0, s0);
      if !written {
        assert Clone(present, id, weeks, fault) == Run([], false) by {
          assert !present && i == 0;
        }
        return false;
      }
      if !committed {
        assert Clone(present, id, weeks, fault) == Run(Steps(id, weeks, i) + [StatusSet(id, Heartbeat(i, n))], false) by {
          assert present && fault == Some(i) && i < n;
        }
        return false;
      }
    }
    CloneFinished(present, id, weeks, fault);
    ok := Write(store, j0, w0, s0, Steps(id, weeks, n), StatusSet(id, Ready), false);
    assert ok == present;
  }

  /** A run that got past every week ends with `ready` exactly when the row
      exists; without it there were no weeks to write. */
  lemma CloneFinished<W>(present: bool, id: string, weeks: seq<W>, fault: Option<nat>)
    requires fault.None? || fault.value >= |weeks|
    requires present || |weeks| == 0
    ensures Clone(present, id, weeks, fault) ==
      if present then Run(Steps(id, weeks, |weeks|) + [StatusSet(id, Ready)], true)
      else Run(Steps(id, weeks, |weeks|), false)
  {
    assert !present ==> Steps(id, weeks, |weeks|) == [];
  }

  /** One pass of the week loop: the heartbeat status, then the week's
      transaction, which the database rejects when `fault` names this
      week. A failed status update skips the transaction. */
  method CloneWeek<W>(store: ProgramStore<W>, id: string, weeks: seq<W>, i: nat, fault: Option<nat>,
                      ghost j0: seq<Event<W>>, ghost w0: seq<W>, ghost s0: map<string, string>)
    returns (written: bool, committed: bool)
    requires i < |weeks| && Reflects(store, j0, w0, s0, Steps(id, weeks, i))
    modifies store
    ensures written == (id in old(store.copyStatus))
    ensures committed == (written && fault != Some(i))
    ensures store.copyStatus.Keys == old(store.copyStatus).Keys
    ensures Reflects(store, j0, w0, s0,
      if committed then Steps(id, weeks, i + 1)
      else if written then Steps(id, weeks, i) + [StatusSet(id, Heartbeat(i, |weeks|))]
      else Steps(id, weeks, i))
  {
    var hb := StatusSet(id, Heartbeat(i, |weeks|));
    written := Write(store, j0, w0, s0, Steps(id, weeks, i), hb, false);
    if !written {
      return written, false;
    }
    committed := Write(store, j0, w0, s0, Steps(id, weeks, i) + [hb], WeekCreated(weeks[i]), fault == Some(i));
    if committed {
      assert Steps(id, weeks, i + 1) == Steps(id, weeks, i) + [hb] + [WeekCreated(weeks[i])];
    }
  }

  /** The store is its state before a run with `events` applied. */
  ghost predicate Reflects<W>(store: ProgramStore<W>, j0: seq<Event<W>>, w0: seq<W>, s0: map<string, string>, events: seq<Event<W>>)
    reads store
  {
    && store.journal == j0 + events
    && store.weeks == w0 + Created(events)
    && store.copyStatus == ApplyStatus(s0, events)
  }

  /** Performs one write of a run: a status update, or a week's transaction
      that the database rejects when `rejected`. */
  method Write<W>(store: ProgramStore<W>, ghost j0: seq<Event<W>>, ghost w0: seq<W>, ghost s0: map<string, string>,
                  ghost events: seq<Event<W>>, e: Event<W>, rejected: bool) returns (ok: bool)
    requires Reflects(store, j0, w0, s0, events)
    modifies store
    ensures ok == (if e.StatusSet? then e.id in old(store.copyStatus) else !rejected)
    ensures store.copyStatus.Keys == old(store.copyStatus).Keys
    ensures Reflects(store, j0, w0, s0, if ok then events + [e] else events)
  {
    ApplySnoc(s0, events, e);
    CreatedSnoc(events, e);
    if e.StatusSet? {
      ok := store.UpdateStatus(e.id, e.status);
    } else {
      ok := store.CreateWeek(e.week, rejected);
    }
  }

  lemma ApplySnoc<W>(rows: map<string, string>, events: seq<Event<W>>, e: Event<W>)
    ensures ApplyStatus(rows, events + [e])
      == if e.StatusSet? then ApplyStatus(rows, events)[e.id := e.status] else ApplyStatus(rows, events)
  {
    assert (events + [e])[..|events|] == events;
  }

  lemma CreatedSnoc<W>(events: seq<Event<W>>, e: Event<W>)
    ensures Created(events + [e]) == Created(events) + (if e.WeekCreated? then [e.week] else [])
  {
    assert (events + [e])[..|events|] == events;
  }

  /** The status map after a run agrees with the journal: the run's row ends
      at its last status, and no other row changes. */
  lemma {:induction false} ApplyLast<W>(rows: map<string, string>, events: seq<Event<W>>, id: string)
    requires id in rows
    ensures id in ApplyStatus(rows, events)
    ensures ApplyStatus(rows, events)[id] == LastStatus(events, id).GetOr(rows[id])
  {
    if events != [] {
      ApplyLast(rows, events[..|events| - 1], id);
    }
  }
}
