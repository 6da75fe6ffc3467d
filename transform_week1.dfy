/** scripts/transform-week1.js: a fixed table of week-1 spreadsheet entries
    turned into the flat one-row-per-set CSV. The annotations are matched
    case-sensitively, the week is always 1, the day comes from a fixed map
    of the five workout names, and the notes test cells for truthiness
    only. The table itself is the method's input here. */
module TransformWeek1 {
  import opened Wrappers
  import opened Text
  import opened Collections
  import opened Annotations
  import opened FitCsv
  import opened ConvertProgramCsv

  /** One entry of `week1Data`; every field is a string in the table. */
  datatype WeekEntry = WeekEntry(
    workout: string,
    exercise: string,
    warmupSets: string,
    workingSets: string,
    reps: string,
    earlyRpe: string,
    lastRpe: string,
    rest: string,
    technique: string,
    notes: string)

  const WorkoutPrefix := "Full Body #"

  /** `workoutToDayMap[row.workout]`: "Full Body #1" to "Full Body #5" map
      to 1 to 5; any other name is `undefined`. The five keys share the
      prefix and differ in their last character. */
  function DayFor(workout: string): Option<nat> {
    if |workout| == |WorkoutPrefix| + 1 && workout[..|WorkoutPrefix|] == WorkoutPrefix
       && '1' <= workout[|WorkoutPrefix|] <= '5'
    then Some(DigitValue(workout[|WorkoutPrefix|]))
    else None
  }

  /** The map is "Full Body #k" to k for k from 1 to 5, and nothing else. */
  lemma DayForExactly(workout: string, k: nat)
    ensures DayFor(workout) == Some(k) <==> 1 <= k <= 5 && workout == WorkoutPrefix + NatToString(k)
  {
    var n := |WorkoutPrefix|;
    if 1 <= k <= 5 {
      assert NatToString(k) == [DigitChar(k)];
      var w := WorkoutPrefix + NatToString(k);
      assert w[..n] == WorkoutPrefix && w[n] == DigitChar(k);
    }
    if DayFor(workout) == Some(k) {
      var c := workout[n];
      assert DigitChar(k) == c;
      assert NatToString(k) == [c];
      assert workout == workout[..n] + [c];
    }
  }

  /** buildNotes of this script: a part is kept when its cell is a
      non-empty string, without trimming. */
  function SimpleNoteParts(rest: string, technique: string, notes: string): seq<string> {
    (if rest != "" && rest != "N/A" then ["Rest: " + rest] else [])
    + (if technique != "" && technique != "None" then ["Technique: " + technique] else [])
    + (if notes != "" then [notes] else [])
  }

  function SimpleNotes(rest: string, technique: string, notes: string): string {
    Join(SimpleNoteParts(rest, technique, notes), ". ")
  }

  /** With all three kept the order is rest, technique, notes. */
  lemma SimpleNotesOrder(rest: string, technique: string, notes: string)
    requires rest != "" && rest != "N/A"
    requires technique != "" && technique != "None"
    requires notes != ""
    ensures SimpleNotes(rest, technique, notes) == "Rest: " + rest + ". " + "Technique: " + technique + ". " + notes
  {
    var a, b := "Rest: " + rest, "Technique: " + technique;
    var parts := SimpleNoteParts(rest, technique, notes);
    assert parts == [a, b, notes];
    assert parts[1..] == [b, notes];
    assert parts[1..][1..] == [notes];
    assert Join(parts[1..], ". ") == b + ". " + notes;
    assert Join(parts, ". ") == a + ". " + (b + ". " + notes);
  }

  /** A rest of "N/A" or "", a technique of "None" or "" and empty notes
      contribute nothing. */
  lemma SimpleNotesOmits(rest: string, technique: string, notes: string)
    ensures SimpleNotes("N/A", technique, notes) == SimpleNotes("", technique, notes)
    ensures SimpleNotes(rest, "None", notes) == SimpleNotes(rest, "", notes)
    ensures SimpleNotes("", "", notes) == notes
  {
    assert SimpleNoteParts("N/A", technique, notes) == SimpleNoteParts("", technique, notes);
    assert SimpleNoteParts(rest, "None", notes) == SimpleNoteParts(rest, "", notes);
    assert SimpleNoteParts("", "", notes) == (if notes != "" then [notes] else []);
  }

  /** The two scripts' notes agree on every cell that is empty or has a
      non-space character; they differ only on white-space-only cells,
      which the other script drops and this one keeps. */
  lemma SimpleNotesAgree(rest: string, technique: string, notes: string)
    requires rest == "" || Trim(rest) != ""
    requires technique == "" || Trim(technique) != ""
    requires notes == "" || Trim(notes) != ""
    ensures SimpleNotes(rest, technique, notes) == BuildNotes(Some(rest), Some(technique), Some(notes))
  {
    TrimEmpty();
    var r1 := if rest != "" && rest != "N/A" then ["Rest: " + rest] else [];
    var t1 := if technique != "" && technique != "None" then ["Technique: " + technique] else [];
    var n1 := if notes != "" then [notes] else [];
    var r2 := if Present(Some(rest)) && rest != "N/A" then ["Rest: " + rest] else [];
    var t2 := if Present(Some(technique)) && technique != "None" then ["Technique: " + technique] else [];
    var n2 := if Present(Some(notes)) then [notes] else [];
    assert r1 == r2 && t1 == t2 && n1 == n2;
    assert SimpleNoteParts(rest, technique, notes) == r1 + t1 + n1;
    assert NoteParts(Some(rest), Some(technique), Some(notes)) == r2 + t2 + n2;
  }

  lemma TrimEmpty()
    ensures Trim("") == ""
  {
    TrimEmptyIff("");
  }

  /** A white-space-only note is dropped by one script and kept by the
      other. */
  lemma SimpleNotesKeepsBlank()
    ensures SimpleNotes("", "", " ") == " "
    ensures BuildNotes(Some(""), Some(""), Some(" ")) == ""
  {
    assert SimpleNotes("", "", " ") == " " by {
      assert SimpleNoteParts("", "", " ") == [" "];
    }
    assert NoteParts(Some(""), Some(""), Some(" ")) == [] by {
      assert Trim(" ") == "" by {
        TrimEmptyIff(" ");
      }
      TrimEmpty();
    }
  }

  /** What every set row of an entry shares. */
  function EntryOf(row: WeekEntry): Entry {
    Entry(
      "1",
      DayFor(row.workout),
      row.workout,
      CleanExerciseName(row.exercise, false),
      ExtractExerciseGroup(row.exercise, false),
      row.reps,
      ParseRpe(Some(row.earlyRpe)),
      ParseRpe(Some(row.lastRpe)),
      SimpleNotes(row.rest, row.technique, row.notes))
  }

  /** The set rows of one entry: `parseInt(row.workingSets)` of them. */
  function EntryRows(row: WeekEntry): (rows: seq<OutputRow>)
    ensures |rows| == SetCount(ParseInt(row.workingSets))
  {
    SetRows(EntryOf(row), ParseInt(row.workingSets))
  }

  /** The set rows of all entries, entry after entry. */
  function AllRows(data: seq<WeekEntry>): seq<OutputRow> {
    FlatMap(data, EntryRows)
  }

  /** The top-level loops: the header, then each entry's rows in order. */
  method Transform(data: seq<WeekEntry>) returns (csvRows: seq<string>)
    ensures csvRows == [Header] + RenderAll(AllRows(data))
  {
    var body: seq<string> := [];
    for i := 0 to |data|
      invariant body == RenderAll(AllRows(data[..i]))
    {
      var rows := EmitEntry(data[i]);
      TransformStep(data, i);
      body := body + rows;
    }
    assert data[..|data|] == data;
    csvRows := [Header] + body;
  }

  lemma TransformStep(data: seq<WeekEntry>, i: nat)
    requires i < |data|
    ensures RenderAll(AllRows(data[..i + 1])) == RenderAll(AllRows(data[..i])) + RenderAll(EntryRows(data[i]))
  {
    FlatMapSnoc(data, EntryRows, i);
    RenderAllConcat(AllRows(data[..i]), EntryRows(data[i]));
  }

  /** The inner loop for one entry: its rendered set rows. */
  method EmitEntry(row: WeekEntry) returns (rows: seq<string>)
    ensures rows == RenderAll(EntryRows(row))
  {
    rows := ExpandSets(EntryOf(row), ParseInt(row.workingSets));
  }

  /** The rows of one entry are its sets 1 to n in order; only set n has
      the last-set RPE; the reps follow the "/" and "+" rules; the week is 1
      and the day is the fixed map's. */
  lemma EntryRowsShape(row: WeekEntry, j: nat)
    requires j < SetCount(ParseInt(row.workingSets))
    ensures var n := SetCount(ParseInt(row.workingSets));
      var r := EntryRows(row)[j];
      && r.week == "1" && r.day == DayFor(row.workout)
      && r.workout == row.workout
      && r.setNumber == j + 1
      && r.rpe == (if j + 1 == n then ParseRpe(Some(row.lastRpe)) else ParseRpe(Some(row.earlyRpe)))
      && r.reps == RepsForSet(row.reps, j + 1)
  {
    SetRowsShape(EntryOf(row), ParseInt(row.workingSets), j);
  }

  /** Where entry i's rows start in the output. */
  function Offset(data: seq<WeekEntry>, i: nat): nat
    requires i <= |data|
  {
    |AllRows(data[..i])|
  }

  /** In the output, entry i's rows are its sets 1 to n, as one block after
      the rows of the entries before it. */
  lemma TransformEntryRows(data: seq<WeekEntry>, i: nat, j: nat)
    requires i < |data| && j < SetCount(ParseInt(data[i].workingSets))
    ensures Offset(data, i) + j < |AllRows(data)|
    ensures AllRows(data)[Offset(data, i) + j] == EntryRows(data[i])[j]
  {
    FlatMapAt(data, EntryRows, i, j);
  }

  /** Every output row has week 1 and its workout's day from the fixed map. */
  lemma EntryRowsWeekDay(row: WeekEntry)
    ensures forall j :: 0 <= j < |EntryRows(row)| ==>
      EntryRows(row)[j].week == "1" && EntryRows(row)[j].day == DayFor(EntryRows(row)[j].workout)
  {
  }

  lemma {:induction false} AllRowsWeekDay(data: seq<WeekEntry>)
    ensures forall j :: 0 <= j < |AllRows(data)| ==>
      AllRows(data)[j].week == "1" && AllRows(data)[j].day == DayFor(AllRows(data)[j].workout)
  {
    if data != [] {
      var init: seq<OutputRow> := AllRows(data[..|data| - 1]);
      var last: seq<OutputRow> := EntryRows(data[|data| - 1]);
      AllRowsWeekDay(data[..|data| - 1]);
      EntryRowsWeekDay(data[|data| - 1]);
      assert AllRows(data) == init + last;
      forall j | 0 <= j < |init + last|
        ensures (init + last)[j].week == "1" && (init + last)[j].day == DayFor((init + last)[j].workout)
      {
        if j >= |init| {
          assert (init + last)[j] == last[j - |init|];
        }
      }
    }
  }
}
