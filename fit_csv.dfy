/** The flat one-row-per-set CSV that scripts/convert-program-csv.js and
    scripts/transform-week1.js both write: the fixed header, the ten cells
    of a set row, the reps rules for "4/6/8" and "5+4+3+", the last-set RPE
    rule, and the loop that emits one row per working set. The two scripts
    carry the same code for these; it is stated once here. */
module FitCsv {
  import opened Wrappers
  import opened Text
  import opened Collections

  const Header := "week,day,workout_name,exercise,exercise_group,set,reps,weight,rpe,notes"

  /** One set row before rendering. `day` is `None` where the script's day
      lookup gives `undefined`. */
  datatype OutputRow = OutputRow(
    week: string,
    day: Option<nat>,
    workout: string,
    exercise: string,
    group: Option<char>,
    setNumber: nat,
    reps: string,
    rpe: Option<int>,
    notes: string)

  function Quoted(s: string): string {
    "\"" + s + "\""
  }

  /** `rpe || ''`: `null` and `0` both leave the cell empty. */
  function RpeCell(rpe: Option<int>): string {
    if rpe.None? || rpe.value == 0 then "" else IntToString(rpe.value)
  }

  /** Array.prototype.join renders `undefined` as the empty string. */
  function DayCell(day: Option<nat>): string {
    match day
    case None => ""
    case Some(d) => NatToString(d)
  }

  /** The ten cells, in header order; the weight cell is always empty. */
  function Cells(r: OutputRow): seq<string> {
    [ r.week,
      DayCell(r.day),
      Quoted(r.workout),
      Quoted(r.exercise),
      if r.group.Some? then Quoted([r.group.value]) else "",
      NatToString(r.setNumber),
      Quoted(r.reps),
      "",
      RpeCell(r.rpe),
      Quoted(r.notes) ]
  }

  function Render(r: OutputRow): string {
    Join(Cells(r), ",")
  }

  // ---------------------------------------------------------------- reps

  /** The reps cell of set `setNum` (counted from 1). Reps containing "/"
      give each set its own part of the split, and a set past the last part
      gets "undefined", which is how a template literal renders the missing
      element. Otherwise reps containing "+" give the text before the first
      "+". Otherwise the reps are used as given. */
  function RepsForSet(reps: string, setNum: nat): string {
    if Contains(reps, "/") then
      var parts := SplitOn(reps, '/');
      if 1 <= setNum <= |parts| then parts[setNum - 1] else "undefined"
    else if Contains(reps, "+") then SplitOn(reps, '+')[0]
    else reps
  }

  /** The separator occurs in a join of two or more parts. */
  lemma JoinHasSeparator(parts: seq<string>, c: char)
    requires |parts| >= 2
    ensures Contains(Join(parts, [c]), [c])
  {
    var s := Join(parts, [c]);
    assert s == parts[0] + [c] + Join(parts[1..], [c]);
    assert s[|parts[0]|] == c;
    ContainsChar(s, c);
  }

  /** Per-set reps such as "4/6/8": set i gets the i-th part. */
  lemma RepsPerSet(parts: seq<string>, setNum: nat)
    requires |parts| >= 2
    requires forall k :: 0 <= k < |parts| ==> '/' !in parts[k]
    ensures 1 <= setNum <= |parts| ==> RepsForSet(Join(parts, "/"), setNum) == parts[setNum - 1]
    ensures setNum > |parts| ==> RepsForSet(Join(parts, "/"), setNum) == "undefined"
  {
    JoinHasSeparator(parts, '/');
    SplitJoin(parts, '/');
  }

  /** Dropset reps such as "5+4+3+": every set gets the first segment. */
  lemma RepsDropset(first: string, rest: string, setNum: nat)
    requires '+' !in first
    requires '/' !in first && '/' !in rest
    ensures RepsForSet(first + "+" + rest, setNum) == first
  {
    var s := first + "+" + rest;
    assert '/' !in s;
    ContainsChar(s, '/');
    assert s[|first|] == '+';
    ContainsChar(s, '+');
    CharIndexAfter(first, '+', rest);
    assert s[..|first|] == first;
  }

  /** Reps with neither "/" nor "+" are used as given. */
  lemma RepsPlain(reps: string, setNum: nat)
    requires '/' !in reps && '+' !in reps
    ensures RepsForSet(reps, setNum) == reps
  {
    ContainsChar(reps, '/');
    ContainsChar(reps, '+');
  }

  // ---------------------------------------------------------- expansion

  /** What a source row contributes to each of its set rows. */
  datatype Entry = Entry(
    week: string,
    day: Option<nat>,
    workout: string,
    exercise: string,
    group: Option<char>,
    reps: string,
    earlyRpe: Option<int>,
    lastRpe: Option<int>,
    notes: string)

  /** How many times `for (let setNum = 1; setNum <= workingSets; setNum++)`
      runs: none for parseInt's NaN (`None`) or a count below 1. */
  function SetCount(workingSets: Option<int>): (n: nat)
    ensures workingSets.Some? && workingSets.value >= 1 ==> n == workingSets.value
    ensures workingSets.None? || workingSets.value < 1 ==> n == 0
  {
    if workingSets.Some? && workingSets.value >= 1 then workingSets.value else 0
  }

  /** Set `setNum` of `n`: only the last set (`setNum === workingSets`)
      takes the last-set RPE, the others the early RPE. */
  function SetRow(e: Entry, n: nat, setNum: nat): OutputRow {
    OutputRow(e.week, e.day, e.workout, e.exercise, e.group, setNum,
              RepsForSet(e.reps, setNum),
              if setNum == n then e.lastRpe else e.earlyRpe,
              e.notes)
  }

  /** The rows of one entry: sets 1 to n, in order. */
  function SetRows(e: Entry, workingSets: Option<int>): (rows: seq<OutputRow>)
    ensures |rows| == SetCount(workingSets)
    ensures forall j :: 0 <= j < |rows| ==> rows[j] == SetRow(e, |rows|, j + 1)
  {
    var n := SetCount(workingSets);
    seq(n, j requires 0 <= j < n => SetRow(e, n, j + 1))
  }

  /** Line j of an entry's rendering is its set j + 1. */
  lemma RenderedSetRow(e: Entry, workingSets: Option<int>, j: nat)
    requires j < SetCount(workingSets)
    ensures RenderAll(SetRows(e, workingSets))[j] == Render(SetRow(e, SetCount(workingSets), j + 1))
  {
  }

  function RenderAll(rows: seq<OutputRow>): (lines: seq<string>)
    ensures |lines| == |rows|
    ensures forall j :: 0 <= j < |rows| ==> lines[j] == Render(rows[j])
  {
    Map(rows, Render)
  }

  lemma RenderAllConcat(a: seq<OutputRow>, b: seq<OutputRow>)
    ensures RenderAll(a + b) == RenderAll(a) + RenderAll(b)
  {
    MapConcat(a, b, Render);
  }

  /** The set loop: one rendered row per working set, numbered from 1, with
      the last-set RPE on the last and the early RPE on the others. */
  method ExpandSets(e: Entry, workingSets: Option<int>) returns (rows: seq<string>)
    ensures rows == RenderAll(SetRows(e, workingSets))
    ensures |rows| == SetCount(workingSets)
  {
    var n := SetCount(workingSets);
    ghost var all := RenderAll(SetRows(e, workingSets));
    rows := [];
    var setNum := 1;
    while setNum <= n
      invariant 1 <= setNum <= n + 1
      invariant rows == all[..setNum - 1]
    {
      var row := Render(SetRow(e, n, setNum));
      assert rows + [row] == all[..setNum] by {
        RenderedSetRow(e, workingSets, setNum - 1);
        PrefixSnoc(all, setNum - 1);
      }
      rows := rows + [row];
      setNum := setNum + 1;
    }
    assert all[..n] == all;
  }

  /** The set numbers are 1..n, the last-set RPE is used exactly on set n,
      and every other value comes from the entry. */
  lemma SetRowsShape(e: Entry, workingSets: Option<int>, j: nat)
    requires j < SetCount(workingSets)
    ensures var r := SetRows(e, workingSets)[j];
      && r.setNumber == j + 1
      && r.rpe == (if j + 1 == SetCount(workingSets) then e.lastRpe else e.earlyRpe)
      && r.reps == RepsForSet(e.reps, j + 1)
      && r.week == e.week && r.day == e.day && r.workout == e.workout
      && r.exercise == e.exercise && r.group == e.group && r.notes == e.notes
  {
  }
}
