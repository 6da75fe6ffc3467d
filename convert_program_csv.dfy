/** scripts/convert-program-csv.js: a multi-week program spreadsheet, read
    as text, becomes the flat one-row-per-set CSV. The file system is left
    out: the input is the file's content and the output the text that would
    be written. The module-level workout-to-day table is a `DayAssigner`
    object whose state persists between calls. */
module ConvertProgramCsv {
  import opened Wrappers
  import opened Text
  import opened Collections
  import opened Annotations
  import opened FitCsv

  // -------------------------------------------------------- parseCSVLine

  /** The parser's state after a prefix of the line: the fields finished so
      far (untrimmed), the field being read, and whether a quote is open. */
  datatype Scan = Scan(done: seq<string>, current: string, inQuotes: bool)

  const Start := Scan([], "", false)

  /** One character: a quote toggles the quote state and is dropped, a
      comma outside quotes ends the field, anything else is kept. */
  function ScanStep(st: Scan, c: char): Scan {
    if c == '"' then Scan(st.done, st.current, !st.inQuotes)
    else if c == ',' && !st.inQuotes then Scan(st.done + [st.current], "", st.inQuotes)
    else Scan(st.done, st.current + [c], st.inQuotes)
  }

  function ScanFrom(st: Scan, s: string): Scan {
    if s == [] then st else ScanStep(ScanFrom(st, s[..|s| - 1]), s[|s| - 1])
  }

  /** The fields of a line before trimming. */
  function RawFields(line: string): seq<string> {
    var st := ScanFrom(Start, line);
    st.done + [st.current]
  }

  function TrimAll(parts: seq<string>): seq<string> {
    Map(parts, Trim)
  }

  /** What parseCSVLine returns: the fields, each trimmed. */
  function CsvFields(line: string): seq<string> {
    TrimAll(RawFields(line))
  }

  /** parseCSVLine: the character loop, trimming each field as it ends. */
  method ParseCsvLine(line: string) returns (result: seq<string>)
    ensures result == CsvFields(line)
  {
    result := [];
    var current := "";
    var inQuotes := false;
    for i := 0 to |line|
      invariant result == TrimAll(ScanFrom(Start, line[..i]).done)
      invariant current == ScanFrom(Start, line[..i]).current
      invariant inQuotes == ScanFrom(Start, line[..i]).inQuotes
    {
      ghost var st := ScanFrom(Start, line[..i]);
      assert ScanFrom(Start, line[..i + 1]) == ScanStep(st, line[i]) by {
        PrefixSnoc(line, i);
      }
      var c := line[i];
      if c == '"' {
        inQuotes := !inQuotes;
      } else if c == ',' && !inQuotes {
        TrimAllSnoc(st.done, current);
        result := result + [Trim(current)];
        current := "";
      } else {
        current := current + [c];
      }
    }
    assert line[..|line|] == line;
    TrimAllSnoc(ScanFrom(Start, line).done, current);
    result := result + [Trim(current)];
  }

  lemma TrimAllSnoc(parts: seq<string>, p: string)
    ensures TrimAll(parts + [p]) == TrimAll(parts) + [Trim(p)]
  {
    MapConcat(parts, [p], Trim);
    assert Map([p], Trim) == [Trim(p)];
  }

  /** The number of quote characters. */
  function QuoteCount(s: string): nat {
    if s == [] then 0 else QuoteCount(s[..|s| - 1]) + (if s[|s| - 1] == '"' then 1 else 0)
  }

  /** The commas with an even number of quotes before them: those outside
      quotes. */
  function OutsideCommas(s: string): nat {
    if s == [] then 0
    else OutsideCommas(s[..|s| - 1]) + (if s[|s| - 1] == ',' && QuoteCount(s[..|s| - 1]) % 2 == 0 then 1 else 0)
  }

  /** `s` with its quote characters removed. */
  function Unquoted(s: string): string {
    if s == [] then [] else Unquoted(s[..|s| - 1]) + (if s[|s| - 1] == '"' then [] else [s[|s| - 1]])
  }

  lemma ScanInvariant(line: string)
    ensures ScanFrom(Start, line).inQuotes <==> QuoteCount(line) % 2 == 1
    ensures |ScanFrom(Start, line).done| == OutsideCommas(line)
    ensures Join(RawFields(line), ",") == Unquoted(line)
    ensures forall k :: 0 <= k < |RawFields(line)| ==> '"' !in RawFields(line)[k]
  {
    ScanCounts(line);
    ScanJoin(line);
    ScanNoQuotes(line);
  }

  /** A quote is open after an odd number of quotes, and a field ends at
      each comma outside quotes. */
  lemma {:induction false} ScanCounts(line: string)
    ensures ScanFrom(Start, line).inQuotes <==> QuoteCount(line) % 2 == 1
    ensures |ScanFrom(Start, line).done| == OutsideCommas(line)
  {
    if line != [] {
      ScanCounts(line[..|line| - 1]);
    }
  }

  /** The fields joined with commas are the line without its quotes. */
  lemma {:induction false} ScanJoin(line: string)
    ensures Join(RawFields(line), ",") == Unquoted(line)
  {
    if line != [] {
      var init := line[..|line| - 1];
      var c := line[|line| - 1];
      ScanJoin(init);
      var st := ScanFrom(Start, init);
      assert ScanFrom(Start, line) == ScanStep(st, c);
      JoinSnoc(st.done, st.current, ",");
      if c == '"' {
      } else if c == ',' && !st.inQuotes {
        assert RawFields(line) == (st.done + [st.current]) + [""];
        JoinSnoc(st.done + [st.current], "", ",");
      } else {
        assert RawFields(line) == st.done + [st.current + [c]];
        JoinSnoc(st.done, st.current + [c], ",");
      }
    }
  }

  /** No field holds a quote character. */
  lemma {:induction false} ScanNoQuotes(line: string)
    ensures forall k :: 0 <= k < |RawFields(line)| ==> '"' !in RawFields(line)[k]
  {
    if line != [] {
      var init := line[..|line| - 1];
      var c := line[|line| - 1];
      ScanNoQuotes(init);
      var st := ScanFrom(Start, init);
      assert ScanFrom(Start, line) == ScanStep(st, c);
      if c == '"' {
        assert RawFields(line) == RawFields(init);
      } else if c == ',' && !st.inQuotes {
        var fields := st.done + [st.current] + [""];
        assert fields == RawFields(line);
        forall k | 0 <= k < |fields| ensures '"' !in fields[k] {
          if k < |fields| - 1 {
            assert fields[k] == RawFields(init)[k];
          }
        }
      } else {
        var fields := st.done + [st.current + [c]];
        assert fields == RawFields(line);
        forall k | 0 <= k < |fields| ensures '"' !in fields[k] {
          assert k < |fields| - 1 ==> fields[k] == RawFields(init)[k];
          assert k == |fields| - 1 ==> fields[k] == RawFields(init)[k] + [c];
        }
      }
    }
  }

  /** parseCSVLine yields one more field than there are commas outside
      quotes; no field holds a quote character or surrounding white space;
      and the untrimmed fields joined with commas give back the line
      without its quotes, so a comma inside quotes stays inside its field. */
  lemma ParseCsvLineFields(line: string)
    ensures |CsvFields(line)| == |RawFields(line)| == OutsideCommas(line) + 1
    ensures forall k :: 0 <= k < |CsvFields(line)| ==>
      CsvFields(line)[k] == Trim(RawFields(line)[k]) && IsTrimmed(CsvFields(line)[k]) && '"' !in CsvFields(line)[k]
    ensures Join(RawFields(line), ",") == Unquoted(line)
  {
    ScanInvariant(line);
    forall k | 0 <= k < |CsvFields(line)| ensures '"' !in CsvFields(line)[k] {
      TrimKeepsOut(RawFields(line)[k], '"');
    }
  }

  lemma {:induction false} UnquotedPlain(s: string)
    requires '"' !in s
    ensures Unquoted(s) == s
  {
    if s != [] {
      assert s[|s| - 1] in s;
      assert '"' !in s[..|s| - 1];
      UnquotedPlain(s[..|s| - 1]);
    }
  }

  lemma {:induction false} ScanPlainLine(line: string)
    requires '"' !in line
    ensures !ScanFrom(Start, line).inQuotes
    ensures forall k :: 0 <= k < |RawFields(line)| ==> ',' !in RawFields(line)[k]
  {
    if line != [] {
      var init := line[..|line| - 1];
      var c := line[|line| - 1];
      assert c in line;
      assert '"' !in init;
      ScanPlainLine(init);
      var st := ScanFrom(Start, init);
      assert ScanFrom(Start, line) == ScanStep(st, c);
      if c == ',' {
        var fields := st.done + [st.current] + [""];
        assert fields == RawFields(line);
        forall k | 0 <= k < |fields| ensures ',' !in fields[k] {
          if k < |fields| - 1 {
            assert fields[k] == RawFields(init)[k];
          }
        }
      } else {
        var fields := st.done + [st.current + [c]];
        assert fields == RawFields(line);
        forall k | 0 <= k < |fields| ensures ',' !in fields[k] {
          assert k < |fields| - 1 ==> fields[k] == RawFields(init)[k];
          assert k == |fields| - 1 ==> fields[k] == RawFields(init)[k] + [c];
        }
      }
    }
  }

  /** A line without quotes is split at every comma. */
  lemma ParseCsvLinePlain(line: string)
    requires '"' !in line
    ensures RawFields(line) == SplitOn(line, ',')
    ensures CsvFields(line) == TrimAll(SplitOn(line, ','))
  {
    ScanInvariant(line);
    UnquotedPlain(line);
    ScanPlainLine(line);
    SplitJoin(RawFields(line), ',');
  }

  // ---------------------------------------------------- reading rows back

  lemma {:induction false} ScanConcat(st: Scan, a: string, b: string)
    ensures ScanFrom(st, a + b) == ScanFrom(ScanFrom(st, a), b)
  {
    if b != [] {
      assert (a + b)[..|a + b| - 1] == a + b[..|b| - 1];
      ScanConcat(st, a, b[..|b| - 1]);
    } else {
      assert a + b == a;
    }
  }

  /** Text without quotes (and, outside quotes, without commas) is appended
      to the current field. */
  lemma {:induction false} ScanText(st: Scan, x: string)
    requires '"' !in x
    requires !st.inQuotes ==> ',' !in x
    ensures ScanFrom(st, x) == Scan(st.done, st.current + x, st.inQuotes)
  {
    if x != [] {
      var init := x[..|x| - 1];
      assert x[|x| - 1] in x;
      assert forall c :: c in init ==> c in x;
      ScanText(st, init);
      assert st.current + init + [x[|x| - 1]] == st.current + x;
    } else {
      assert st.current + x == st.current;
    }
  }

  /** One output cell: its text and whether it is written between quotes. */
  datatype Cell = Cell(text: string, quoted: bool)

  function CellString(c: Cell): string {
    if c.quoted then Quoted(c.text) else c.text
  }

  predicate Readable(c: Cell) {
    '"' !in c.text && (!c.quoted ==> ',' !in c.text)
  }

  function CellStrings(cells: seq<Cell>): (r: seq<string>)
    ensures |r| == |cells|
    ensures forall k :: 0 <= k < |cells| ==> r[k] == CellString(cells[k])
  {
    seq(|cells|, k requires 0 <= k < |cells| => CellString(cells[k]))
  }

  function Texts(cells: seq<Cell>): (r: seq<string>)
    ensures |r| == |cells|
    ensures forall k :: 0 <= k < |cells| ==> r[k] == cells[k].text
  {
    seq(|cells|, k requires 0 <= k < |cells| => cells[k].text)
  }

  lemma ScanCell(st: Scan, c: Cell)
    requires !st.inQuotes && Readable(c)
    ensures ScanFrom(st, CellString(c)) == Scan(st.done, st.current + c.text, false)
  {
    if c.quoted {
      var open := ScanFrom(st, "\"");
      assert ScanFrom(st, "\"") == ScanStep(ScanFrom(st, []), '"');
      ScanConcat(st, "\"", c.text);
      ScanText(open, c.text);
      ScanConcat(st, "\"" + c.text, "\"");
      assert ScanFrom(ScanFrom(st, "\"" + c.text), "\"") == ScanStep(ScanFrom(ScanFrom(st, "\"" + c.text), []), '"');
    } else {
      ScanText(st, c.text);
    }
  }

  lemma CellsSnoc(cells: seq<Cell>)
    requires |cells| >= 2
    ensures var init := cells[..|cells| - 1];
      && CellStrings(cells) == CellStrings(init) + [CellString(cells[|cells| - 1])]
      && Texts(init)[..|init| - 1] + [init[|init| - 1].text] == Texts(cells)[..|cells| - 1]
  {
  }

  /** A comma outside quotes closes the field; the next cell then fills
      the new one. */
  lemma ScanAfterComma(p: string, done: seq<string>, cur: string, c: Cell)
    requires ScanFrom(Start, p) == Scan(done, cur, false) && Readable(c)
    ensures ScanFrom(Start, p + "," + CellString(c)) == Scan(done + [cur], c.text, false)
  {
    assert ScanFrom(Start, p + ",") == Scan(done + [cur], "", false) by {
      ScanConcat(Start, p, ",");
      var st := ScanFrom(Start, p);
      assert ScanFrom(st, ",") == ScanStep(ScanFrom(st, []), ',');
    }
    ScanConcat(Start, p + ",", CellString(c));
    ScanCell(ScanFrom(Start, p + ","), c);
    assert "" + c.text == c.text;
  }

  lemma {:induction false} ScanCells(cells: seq<Cell>)
    requires |cells| >= 1
    requires forall k :: 0 <= k < |cells| ==> Readable(cells[k])
    ensures ScanFrom(Start, Join(CellStrings(cells), ",")) == Scan(Texts(cells)[..|cells| - 1], cells[|cells| - 1].text, false)
  {
    var last := cells[|cells| - 1];
    if |cells| == 1 {
      ScanCell(Start, last);
    } else {
      var init := cells[..|cells| - 1];
      var prefix := Join(CellStrings(init), ",");
      var done, cur := Texts(init)[..|init| - 1], init[|init| - 1].text;
      assert Join(CellStrings(cells), ",") == prefix + "," + CellString(last) by {
        CellsSnoc(cells);
        JoinSnoc(CellStrings(init), CellString(last), ",");
      }
      assert ScanFrom(Start, prefix) == Scan(done, cur, false) by {
        assert forall k :: 0 <= k < |init| ==> Readable(init[k]) by {
          forall k | 0 <= k < |init| ensures Readable(init[k]) {
            assert init[k] == cells[k];
          }
        }
        ScanCells(init);
      }
      ScanAfterComma(prefix, done, cur, last);
      assert done + [cur] == Texts(cells)[..|cells| - 1] by {
        CellsSnoc(cells);
      }
    }
  }

  /** Cells joined with commas parse back, with parseCSVLine, into their
      texts, when no text has a quote character and an unquoted text has
      no comma. */
  lemma ParseCells(cells: seq<Cell>)
    requires |cells| >= 1
    requires forall k :: 0 <= k < |cells| ==> Readable(cells[k])
    ensures RawFields(Join(CellStrings(cells), ",")) == Texts(cells)
  {
    ScanCells(cells);
    assert Texts(cells)[..|cells| - 1] + [cells[|cells| - 1].text] == Texts(cells);
  }

  /** The cells of an output row, with their quoting. */
  function RowCells(r: OutputRow): seq<Cell> {
    [ Cell(r.week, false),
      Cell(DayCell(r.day), false),
      Cell(r.workout, true),
      Cell(r.exercise, true),
      if r.group.Some? then Cell([r.group.value], true) else Cell("", false),
      Cell(NatToString(r.setNumber), false),
      Cell(r.reps, true),
      Cell("", false),
      Cell(RpeCell(r.rpe), false),
      Cell(r.notes, true) ]
  }

  /** The cells, written out, are the row's rendered cells. */
  lemma RowCellsStrings(r: OutputRow)
    ensures CellStrings(RowCells(r)) == Cells(r)
  {
  }

  /** The texts of a row's cells: its ten values in header order, the group
      letter as a one-character string or empty. */
  function RowTexts(r: OutputRow): (t: seq<string>)
    ensures |t| == 10
    ensures t[0] == r.week && t[1] == DayCell(r.day) && t[2] == r.workout && t[3] == r.exercise
    ensures t[4] == (if r.group.Some? then [r.group.value] else "")
    ensures t[5] == NatToString(r.setNumber) && t[6] == r.reps && t[7] == ""
    ensures t[8] == RpeCell(r.rpe) && t[9] == r.notes
  {
    Texts(RowCells(r))
  }

  lemma DigitsReadable(s: string)
    requires AllDigits(s)
    ensures '"' !in s && ',' !in s && IsTrimmed(s)
  {
    assert forall k :: 0 <= k < |s| ==> s[k] != '"' && s[k] != ',';
  }

  lemma NumberCellsReadable(r: OutputRow)
    ensures '"' !in DayCell(r.day) && ',' !in DayCell(r.day) && IsTrimmed(DayCell(r.day))
    ensures '"' !in RpeCell(r.rpe) && ',' !in RpeCell(r.rpe) && IsTrimmed(RpeCell(r.rpe))
    ensures '"' !in NatToString(r.setNumber) && ',' !in NatToString(r.setNumber) && IsTrimmed(NatToString(r.setNumber))
  {
    if r.day.Some? {
      DigitsReadable(NatToString(r.day.value));
    }
    if r.rpe.Some? && r.rpe.value != 0 {
      var d := NatToString(if r.rpe.value < 0 then -r.rpe.value else r.rpe.value);
      DigitsReadable(d);
      if r.rpe.value < 0 {
        assert RpeCell(r.rpe) == "-" + d;
        assert forall k :: 1 <= k < |"-" + d| ==> ("-" + d)[k] == d[k - 1];
      }
    }
    DigitsReadable(NatToString(r.setNumber));
  }

  /** The side conditions under which a written row reads back. */
  predicate PlainRow(r: OutputRow) {
    && '"' !in r.week && ',' !in r.week && IsTrimmed(r.week)
    && '"' !in r.workout && IsTrimmed(r.workout)
    && '"' !in r.exercise && IsTrimmed(r.exercise)
    && '"' !in r.reps && IsTrimmed(r.reps)
    && '"' !in r.notes && IsTrimmed(r.notes)
    && (r.group.Some? ==> r.group.value != '"' && !IsSpace(r.group.value))
  }

  lemma RowCellsReadable(r: OutputRow)
    requires PlainRow(r)
    ensures forall k :: 0 <= k < |RowCells(r)| ==> Readable(RowCells(r)[k])
  {
    NumberCellsReadable(r);
    var cells := RowCells(r);
    assert Readable(cells[0]) && Readable(cells[1]) && Readable(cells[2]) && Readable(cells[3]);
    assert Readable(cells[4]);
    assert Readable(cells[5]) && Readable(cells[6]) && Readable(cells[7]) && Readable(cells[8]) && Readable(cells[9]);
  }

  lemma RowTextsTrimmed(r: OutputRow)
    requires PlainRow(r)
    ensures TrimAll(RowTexts(r)) == RowTexts(r)
  {
    NumberCellsReadable(r);
    var texts := RowTexts(r);
    assert IsTrimmed(texts[0]) && IsTrimmed(texts[1]) && IsTrimmed(texts[2]) && IsTrimmed(texts[3]);
    assert IsTrimmed(texts[4]);
    assert IsTrimmed(texts[5]) && IsTrimmed(texts[6]) && IsTrimmed(texts[7]) && IsTrimmed(texts[8]) && IsTrimmed(texts[9]);
    TrimAllTrimmed(texts);
  }

  lemma TrimAllTrimmed(parts: seq<string>)
    requires forall k :: 0 <= k < |parts| ==> IsTrimmed(parts[k])
    ensures TrimAll(parts) == parts
  {
  }

  /** A written row reads back, with parseCSVLine, as its ten values: the
      quotes around text cells go, and commas inside them stay. This holds
      when the texts have no quote characters and no surrounding white
      space, and the unquoted week has no comma. */
  lemma ParseRenderedRow(r: OutputRow)
    requires PlainRow(r)
    ensures CsvFields(Render(r)) == RowTexts(r)
    ensures CsvFields(Render(r)) ==
      [r.week, DayCell(r.day), r.workout, r.exercise, if r.group.Some? then [r.group.value] else "",
       NatToString(r.setNumber), r.reps, "", RpeCell(r.rpe), r.notes]
  {
    var cells := RowCells(r);
    var line := Join(CellStrings(cells), ",");
    RowCellsStrings(r);
    assert Render(r) == line;
    RowCellsReadable(r);
    ParseCells(cells);
    RowTextsTrimmed(r);
    RowTextsValues(r);
  }

  lemma RowTextsValues(r: OutputRow)
    ensures RowTexts(r) ==
      [r.week, DayCell(r.day), r.workout, r.exercise, if r.group.Some? then [r.group.value] else "",
       NatToString(r.setNumber), r.reps, "", RpeCell(r.rpe), r.notes]
  {
    var t := RowTexts(r);
    assert t == [t[0], t[1], t[2], t[3], t[4], t[5], t[6], t[7], t[8], t[9]];
  }

  // ------------------------------------------------------- getOrAssignDay

  /** The names seen so far after one more lookup. */
  function Assign(seen: seq<string>, workout: string): (r: seq<string>)
    ensures workout in r
  {
    if workout in seen then seen else seen + [workout]
  }

  /** The day of a workout seen: its first-seen position, from 1. */
  function DayIn(seen: seq<string>, workout: string): nat
    requires workout in seen
  {
    Position(seen, workout) + 1
  }

  /** A day, once given, never changes. */
  lemma DayStable(seen: seq<string>, workout: string, other: string)
    requires workout in seen
    ensures DayIn(Assign(seen, other), workout) == DayIn(seen, workout)
  {
    var i := Position(seen, workout);
    var s' := Assign(seen, other);
    assert s'[i] == workout;
    var j := Position(s', workout);
    assert j < |seen| ==> seen[j] == s'[j];
  }

  /** The workout-to-day table: `workoutToDayMap` and `nextDayNum`, with the
      names in the order they were first given a day. */
  class DayAssigner {
    var workoutToDay: map<string, nat>
    var nextDay: nat
    ghost var seen: seq<string>

    /** Distinct names get 1, 2, 3, … in first-seen order, and the next day
        is one more than the number of names seen. */
    ghost predicate Valid()
      reads this
    {
      && Distinct(seen)
      && nextDay == |seen| + 1
      && (forall w :: w in workoutToDay <==> w in seen)
      && (forall k :: 0 <= k < |seen| ==> workoutToDay[seen[k]] == k + 1)
    }

    constructor()
      ensures Valid() && seen == [] && workoutToDay == map[] && nextDay == 1
    {
      workoutToDay := map[];
      nextDay := 1;
      seen := [];
    }

    /** getOrAssignDay. The test `!workoutToDayMap[name]` fails only for a
        missing name, as every stored day is at least 1. */
    method GetOrAssignDay(workout: string) returns (day: nat)
      requires Valid()
      modifies this
      ensures Valid()
      ensures seen == Assign(old(seen), workout)
      ensures day == DayIn(seen, workout)
      ensures workout in old(workoutToDay) ==>
        day == old(workoutToDay[workout]) && workoutToDay == old(workoutToDay) && nextDay == old(nextDay)
      ensures workout !in old(workoutToDay) ==>
        day == old(nextDay) && workoutToDay == old(workoutToDay)[workout := day] && nextDay == old(nextDay) + 1
    {
      if workout !in workoutToDay {
        workoutToDay := workoutToDay[workout := nextDay];
        nextDay := nextDay + 1;
        seen := seen + [workout];
      }
      day := workoutToDay[workout];
      PositionDistinct(seen, Position(seen, workout));
    }
  }

  /** The names seen after looking up `names` in order, from none. */
  function AssignAll(names: seq<string>): seq<string> {
    if names == [] then [] else Assign(AssignAll(names[..|names| - 1]), names[|names| - 1])
  }

  function Id(w: string): string {
    w
  }

  /** Days follow first-seen order: the names seen are the distinct names
      in first-appearance order, so the k-th new name gets day k. */
  lemma {:induction false} AssignAllFirstSeen(names: seq<string>)
    ensures AssignAll(names) == FirstSeen(names, Id)
  {
    if names != [] {
      AssignAllFirstSeen(names[..|names| - 1]);
    }
  }

  // ------------------------------------------------------------ buildNotes

  /** `s && s.trim()` on a cell that may be `undefined`. */
  predicate Present(s: Option<string>) {
    s.Some? && Trim(s.value) != ""
  }

  function NoteParts(rest: Option<string>, technique: Option<string>, notes: Option<string>): seq<string> {
    (if Present(rest) && rest.value != "N/A" then ["Rest: " + rest.value] else [])
    + (if Present(technique) && technique.value != "None" then ["Technique: " + technique.value] else [])
    + (if Present(notes) then [notes.value] else [])
  }

  /** buildNotes: the parts present, joined with ". ". */
  function BuildNotes(rest: Option<string>, technique: Option<string>, notes: Option<string>): string {
    Join(NoteParts(rest, technique, notes), ". ")
  }

  /** With all three present the order is rest, technique, notes. */
  lemma BuildNotesOrder(rest: string, technique: string, notes: string)
    requires Trim(rest) != "" && rest != "N/A"
    requires Trim(technique) != "" && technique != "None"
    requires Trim(notes) != ""
    ensures BuildNotes(Some(rest), Some(technique), Some(notes))
      == ("Rest: " + rest) + ". " + ("Technique: " + technique) + ". " + notes
  {
    NotePartsAll(Some(rest), Some(technique), Some(notes));
    JoinThree("Rest: " + rest, "Technique: " + technique, notes, ". ");
  }

  lemma NotePartsAll(rest: Option<string>, technique: Option<string>, notes: Option<string>)
    requires Present(rest) && rest.value != "N/A"
    requires Present(technique) && technique.value != "None"
    requires Present(notes)
    ensures NoteParts(rest, technique, notes) == ["Rest: " + rest.value, "Technique: " + technique.value, notes.value]
  {
    Singletons("Rest: " + rest.value, "Technique: " + technique.value, notes.value);
  }

  lemma Singletons<T>(a: T, b: T, c: T)
    ensures [a] + [b] + [c] == [a, b, c]
  {
  }

  /** A rest of "N/A" and a blank rest contribute nothing. */
  lemma BuildNotesOmitsRest(rest: Option<string>, technique: Option<string>, notes: Option<string>)
    requires rest == Some("N/A") || (rest.Some? && IsBlank(rest.value))
    ensures BuildNotes(rest, technique, notes) == BuildNotes(None, technique, notes)
  {
    TrimEmptyIff(rest.value);
    assert NoteParts(rest, technique, notes) == NoteParts(None, technique, notes);
  }

  /** A technique of "None" and a blank technique contribute nothing. */
  lemma BuildNotesOmitsTechnique(rest: Option<string>, technique: Option<string>, notes: Option<string>)
    requires technique == Some("None") || (technique.Some? && IsBlank(technique.value))
    ensures BuildNotes(rest, technique, notes) == BuildNotes(rest, None, notes)
  {
    TrimEmptyIff(technique.value);
    assert NoteParts(rest, technique, notes) == NoteParts(rest, None, notes);
  }

  /** Blank notes contribute nothing. */
  lemma BuildNotesOmitsNotes(rest: Option<string>, technique: Option<string>, notes: Option<string>)
    requires notes.Some? && IsBlank(notes.value)
    ensures BuildNotes(rest, technique, notes) == BuildNotes(rest, technique, None)
  {
    TrimEmptyIff(notes.value);
    assert NoteParts(rest, technique, notes) == NoteParts(rest, technique, None);
  }

  /** The notes are empty exactly when no part is present. */
  lemma BuildNotesEmpty(rest: Option<string>, technique: Option<string>, notes: Option<string>)
    ensures BuildNotes(rest, technique, notes) == "" <==> NoteParts(rest, technique, notes) == []
  {
    var parts := NoteParts(rest, technique, notes);
    if parts != [] {
      assert parts[0] != "";
      if |parts| > 1 {
        assert Join(parts, ". ") == parts[0] + ". " + Join(parts[1..], ". ");
      }
    }
  }

  // --------------------------------------------------------------- headers

  function Normalized(headers: seq<string>): (names: seq<string>)
    ensures |names| == |headers|
    ensures forall k :: 0 <= k < |headers| ==> names[k] == Normalize(headers[k])
  {
    seq(|headers|, k requires 0 <= k < |headers| => Normalize(headers[k]))
  }

  /** Each name set, in turn, to its index: a later index overwrites. */
  function IndexMap(names: seq<string>): map<string, nat> {
    if names == [] then map[]
    else IndexMap(names[..|names| - 1])[names[|names| - 1] := |names| - 1]
  }

  /** `headerMap` after `headers.forEach((h, idx) => headerMap[norm(h)] = idx)`. */
  function HeaderMap(headers: seq<string>): map<string, nat> {
    IndexMap(Normalized(headers))
  }

  lemma {:induction false} IndexMapKeys(names: seq<string>)
    ensures forall name :: name in IndexMap(names) <==> name in names
  {
    if names != [] {
      var init := names[..|names| - 1];
      IndexMapKeys(init);
      assert names == init + [names[|names| - 1]];
    }
  }

  lemma {:induction false} IndexMapLast(names: seq<string>)
    ensures forall name :: name in IndexMap(names) ==>
      && IndexMap(names)[name] < |names|
      && names[IndexMap(names)[name]] == name
      && forall k :: IndexMap(names)[name] < k < |names| ==> names[k] != name
  {
    if names != [] {
      var init := names[..|names| - 1];
      IndexMapLast(init);
    }
  }

  /** The keys are exactly the normalised headers. */
  lemma HeaderMapKeys(headers: seq<string>)
    ensures forall name :: name in HeaderMap(headers) <==> exists k :: 0 <= k < |headers| && Normalize(headers[k]) == name
  {
    var names := Normalized(headers);
    IndexMapKeys(names);
    forall name | name in names
      ensures exists k :: 0 <= k < |headers| && Normalize(headers[k]) == name
    {
      var k :| 0 <= k < |names| && names[k] == name;
      assert Normalize(headers[k]) == name;
    }
  }

  /** A normalised name maps to the last column that has it. */
  lemma HeaderMapLast(headers: seq<string>)
    ensures forall name :: name in HeaderMap(headers) ==>
      && HeaderMap(headers)[name] < |headers|
      && Normalize(headers[HeaderMap(headers)[name]]) == name
      && forall k :: HeaderMap(headers)[name] < k < |headers| ==> Normalize(headers[k]) != name
  {
    IndexMapLast(Normalized(headers));
  }

  /** The header loop. */
  method BuildHeaderMap(headers: seq<string>) returns (m: map<string, nat>)
    ensures m == HeaderMap(headers)
  {
    ghost var names := Normalized(headers);
    m := map[];
    for i := 0 to |headers|
      invariant m == IndexMap(names[..i])
    {
      assert names[..i + 1][..i] == names[..i];
      m := m[Normalize(headers[i]) := i];
    }
    assert names[..|headers|] == names;
  }

  const Required := ["week", "workout", "exercise", "working sets", "reps"]

  /** The first required name that is not a key. */
  function FirstMissing(required: seq<string>, m: map<string, nat>): (r: Option<string>)
    ensures r.None? <==> forall k :: 0 <= k < |required| ==> required[k] in m
  {
    if required == [] then None
    else if required[0] !in m then Some(required[0])
    else FirstMissing(required[1..], m)
  }

  /** The name reported is missing and every name before it is present. */
  lemma {:induction false} FirstMissingFirst(required: seq<string>, m: map<string, nat>)
    requires FirstMissing(required, m).Some?
    ensures exists j :: (0 <= j < |required| && required[j] == FirstMissing(required, m).value
                         && required[j] !in m && forall k :: 0 <= k < j ==> required[k] in m)
  {
    if required[0] in m {
      FirstMissingFirst(required[1..], m);
      var j :| (0 <= j < |required[1..]| && required[1..][j] == FirstMissing(required, m).value
                && required[1..][j] !in m && forall k :: 0 <= k < j ==> required[1..][k] in m);
      assert required[j + 1] == required[1..][j];
    } else {
      assert required[0] == FirstMissing(required, m).value;
    }
  }

  /** The required-column loop, which throws at the first missing one. */
  method CheckRequired(m: map<string, nat>) returns (missing: Option<string>)
    ensures missing == FirstMissing(Required, m)
  {
    for i := 0 to |Required|
      invariant FirstMissing(Required, m) == FirstMissing(Required[i..], m)
    {
      if Required[i] !in m {
        return Some(Required[i]);
      }
      assert Required[i..][1..] == Required[i + 1..];
    }
    return None;
  }

  // ------------------------------------------------------------ data rows

  /** `values[headerMap[name]]`: `undefined` when there is no such column. */
  function Column(values: seq<string>, hm: map<string, nat>, name: string): Option<string> {
    if name in hm && hm[name] < |values| then Some(values[hm[name]]) else None
  }

  /** A cell that is neither `undefined` nor empty. */
  predicate Truthy(s: Option<string>) {
    s.Some? && s.value != ""
  }

  /** `parseInt(cell || '0')`; `None` is NaN. */
  function WorkingSets(cell: Option<string>): Option<int> {
    ParseInt(if Truthy(cell) then cell.value else "0")
  }

  /** `!week || !workout || !exercise || workingSets === 0 || !reps`. A
      working-set count that is NaN or negative passes this test. */
  predicate MissingData(values: seq<string>, hm: map<string, nat>) {
    || !Truthy(Column(values, hm, "week"))
    || !Truthy(Column(values, hm, "workout"))
    || !Truthy(Column(values, hm, "exercise"))
    || WorkingSets(Column(values, hm, "working sets")) == Some(0)
    || !Truthy(Column(values, hm, "reps"))
  }

  /** Whether a data line is skipped: blank, too few fields, or missing data. */
  predicate Skipped(line: string, headerCount: nat, hm: map<string, nat>) {
    Trim(line) == "" || |CsvFields(line)| < headerCount || MissingData(CsvFields(line), hm)
  }

  /** The values a kept line gives every one of its set rows. */
  function EntryFor(values: seq<string>, hm: map<string, nat>, day: nat): Entry
    requires !MissingData(values, hm)
  {
    var exercise := Column(values, hm, "exercise").value;
    Entry(
      Column(values, hm, "week").value,
      Some(day),
      Column(values, hm, "workout").value,
      CleanExerciseName(exercise, true),
      ExtractExerciseGroup(exercise, true),
      Column(values, hm, "reps").value,
      ParseRpe(Column(values, hm, "early set rpe")),
      ParseRpe(Column(values, hm, "last set rpe")),
      BuildNotes(Column(values, hm, "rest"), Column(values, hm, "last set technique"), Column(values, hm, "notes")))
  }

  /** The rows a kept line contributes and the names seen after it. The
      line is given its workout's day even when its working-set count is NaN
      or negative and it yields no row. */
  function KeptRows(values: seq<string>, hm: map<string, nat>, seen: seq<string>): (seq<OutputRow>, seq<string>)
    requires !MissingData(values, hm)
  {
    var workout := Column(values, hm, "workout").value;
    var seen' := Assign(seen, workout);
    (SetRows(EntryFor(values, hm, DayIn(seen', workout)), WorkingSets(Column(values, hm, "working sets"))), seen')
  }

  /** The rows one data line contributes and the names seen after it. */
  function LineRows(line: string, headerCount: nat, hm: map<string, nat>, seen: seq<string>): (seq<OutputRow>, seq<string>) {
    if Skipped(line, headerCount, hm) then ([], seen) else KeptRows(CsvFields(line), hm, seen)
  }

  /** The rows of the data lines, in order, threading the names seen. */
  function DataRows(lines: seq<string>, headerCount: nat, hm: map<string, nat>, seen: seq<string>): (seq<OutputRow>, seq<string>) {
    Thread(lines, (line, s) => LineRows(line, headerCount, hm, s), seen)
  }

  /** One data line: parse, check, assign the day, emit the set rows. */
  method ProcessRow(line: string, headerCount: nat, hm: map<string, nat>, days: DayAssigner) returns (rows: seq<string>)
    requires days.Valid()
    modifies days
    ensures days.Valid()
    ensures rows == RenderAll(LineRows(line, headerCount, hm, old(days.seen)).0)
    ensures days.seen == LineRows(line, headerCount, hm, old(days.seen)).1
  {
    if Trim(line) == "" {
      return [];
    }
    var values := ParseCsvLine(line);
    if |values| < headerCount {
      return [];
    }
    var week := Column(values, hm, "week");
    var workout := Column(values, hm, "workout");
    var exercise := Column(values, hm, "exercise");
    var workingSets := WorkingSets(Column(values, hm, "working sets"));
    var reps := Column(values, hm, "reps");
    if !Truthy(week) || !Truthy(workout) || !Truthy(exercise) || workingSets == Some(0) || !Truthy(reps) {
      return [];
    }
    var day := days.GetOrAssignDay(workout.value);
    rows := ExpandSets(EntryFor(values, hm, day), workingSets);
  }

  /** The non-blank lines of the content, in order. */
  function NonBlank(lines: seq<string>): (r: seq<string>)
    ensures |r| <= |lines|
    ensures forall k :: 0 <= k < |r| ==> Trim(r[k]) != "" && r[k] in lines
    ensures forall k :: 0 <= k < |lines| && Trim(lines[k]) != "" ==> lines[k] in r
  {
    if lines == [] then []
    else
      var before := NonBlank(lines[..|lines| - 1]);
      var last := lines[|lines| - 1];
      assert forall k :: 0 <= k < |lines| - 1 ==> lines[k] == lines[..|lines| - 1][k];
      if Trim(last) != "" then before + [last] else before
  }

  /** `filter` keeps a single line exactly when it is not blank. */
  lemma NonBlankOne(line: string)
    ensures NonBlank([line]) == if Trim(line) != "" then [line] else []
  {
    assert [line][..0] == [];
  }

  /** `filter` works line by line: filtering a concatenation concatenates
      the filtered parts, so the kept lines stay in their input order. */
  lemma {:induction false} NonBlankConcat(a: seq<string>, b: seq<string>)
    ensures NonBlank(a + b) == NonBlank(a) + NonBlank(b)
  {
    if b == [] {
      assert a + b == a;
    } else {
      var init, last := b[..|b| - 1], b[|b| - 1];
      assert (a + b)[..|a + b| - 1] == a + init;
      assert (a + b)[|a + b| - 1] == last;
      NonBlankConcat(a, init);
      assert NonBlank(b) == NonBlank(init) + (if Trim(last) != "" then [last] else []);
    }
  }

  function ContentLines(content: string): seq<string> {
    NonBlank(SplitOn(content, '\n'))
  }

  /** convertProgram, on the file's content. It fails, before any day is
      assigned, on an input with no non-blank line and on a missing required
      column, naming the first one missing; otherwise the text is the header
      and then the rows of each data line in order. */
  method ConvertProgram(content: string, days: DayAssigner) returns (r: Result<string, string>)
    requires days.Valid()
    modifies days
    ensures days.Valid()
    ensures ContentLines(content) == [] ==> r == Err("Input file is empty") && days.seen == old(days.seen)
    ensures ContentLines(content) != [] ==>
      var lines := ContentLines(content);
      var headers := CsvFields(lines[0]);
      var missing := FirstMissing(Required, HeaderMap(headers));
      && (missing.Some? ==> r == Err("Missing required column: " + missing.value) && days.seen == old(days.seen))
      && (missing.None? ==>
            var out := DataRows(lines[1..], |headers|, HeaderMap(headers), old(days.seen));
            r == Ok(Join([Header] + RenderAll(out.0), "\n")) && days.seen == out.1)
  {
    var lines := ContentLines(content);
    if |lines| == 0 {
      return Err("Input file is empty");
    }
    var headers := ParseCsvLine(lines[0]);
    var headerMap := BuildHeaderMap(headers);
    var missing := CheckRequired(headerMap);
    if missing.Some? {
      return Err("Missing required column: " + missing.value);
    }
    var rows := ConvertLines(lines[1..], |headers|, headerMap, days);
    return Ok(Join([Header] + rows, "\n"));
  }

  /** The loop over the data lines, one call of the row step per line. */
  method ConvertLines(data: seq<string>, headerCount: nat, hm: map<string, nat>, days: DayAssigner) returns (out: seq<string>)
    requires days.Valid()
    modifies days
    ensures days.Valid()
    ensures out == RenderAll(DataRows(data, headerCount, hm, old(days.seen)).0)
    ensures days.seen == DataRows(data, headerCount, hm, old(days.seen)).1
  {
    ghost var seen0 := days.seen;
    out := [];
    for i := 0 to |data|
      invariant days.Valid()
      invariant out == RenderAll(DataRows(data[..i], headerCount, hm, seen0).0)
      invariant days.seen == DataRows(data[..i], headerCount, hm, seen0).1
    {
      ghost var before := DataRows(data[..i], headerCount, hm, seen0);
      var rows := ProcessRow(data[i], headerCount, hm, days);
      DataRowsStep(data, i, headerCount, hm, seen0);
      RenderAllConcat(before.0, LineRows(data[i], headerCount, hm, before.1).0);
      out := out + rows;
    }
    assert data[..|data|] == data;
  }

  /** One more line of the loop. */
  lemma DataRowsStep(data: seq<string>, n: nat, headerCount: nat, hm: map<string, nat>, seen: seq<string>)
    requires n < |data|
    ensures var before := DataRows(data[..n], headerCount, hm, seen);
      var last := LineRows(data[n], headerCount, hm, before.1);
      DataRows(data[..n + 1], headerCount, hm, seen) == (before.0 + last.0, last.1)
  {
    assert data[..n + 1][..n] == data[..n];
  }

  // ------------------------------------------------------- whole-file facts

  /** Lines are processed independently, in order: the rows of two blocks
      of lines are the rows of the first then those of the second. */
  lemma DataRowsConcat(a: seq<string>, b: seq<string>, headerCount: nat, hm: map<string, nat>, seen: seq<string>)
    ensures var first := DataRows(a, headerCount, hm, seen);
      var second := DataRows(b, headerCount, hm, first.1);
      DataRows(a + b, headerCount, hm, seen) == (first.0 + second.0, second.1)
  {
    ThreadConcat(a, b, (line, s) => LineRows(line, headerCount, hm, s), seen);
  }

  /** The rows of a kept line all carry its workout and that workout's day. */
  lemma EntryRows(values: seq<string>, hm: map<string, nat>, day: nat, ws: Option<int>)
    requires !MissingData(values, hm)
    ensures var rows := SetRows(EntryFor(values, hm, day), ws);
      forall j :: 0 <= j < |rows| ==>
        rows[j].workout == Column(values, hm, "workout").value && rows[j].day == Some(day)
  {
    var e := EntryFor(values, hm, day);
    assert e.workout == Column(values, hm, "workout").value && e.day == Some(day);
  }

  /** Every row carries its workout's day in the table `seen`. */
  predicate DaysFrom(rows: seq<OutputRow>, seen: seq<string>) {
    forall j :: 0 <= j < |rows| ==>
      rows[j].workout in seen && rows[j].day == Some(DayIn(seen, rows[j].workout))
  }

  /** `after` keeps the names of `seen`, in order, and may add more. */
  predicate Extends(after: seq<string>, seen: seq<string>) {
    |seen| <= |after| && after[..|seen|] == seen
  }

  lemma KeptRowsDays(values: seq<string>, hm: map<string, nat>, seen: seq<string>)
    requires !MissingData(values, hm)
    ensures Extends(KeptRows(values, hm, seen).1, seen)
    ensures DaysFrom(KeptRows(values, hm, seen).0, KeptRows(values, hm, seen).1)
  {
    var workout := Column(values, hm, "workout").value;
    var seen' := Assign(seen, workout);
    EntryRows(values, hm, DayIn(seen', workout), WorkingSets(Column(values, hm, "working sets")));
    if workout !in seen {
      assert seen'[..|seen|] == seen;
    }
  }

  /** One line only adds names, and each of its rows carries its workout's
      day in the table after it. */
  lemma LineRowsDays(line: string, headerCount: nat, hm: map<string, nat>, seen: seq<string>)
    ensures Extends(LineRows(line, headerCount, hm, seen).1, seen)
    ensures DaysFrom(LineRows(line, headerCount, hm, seen).0, LineRows(line, headerCount, hm, seen).1)
  {
    if !Skipped(line, headerCount, hm) {
      KeptRowsDays(CsvFields(line), hm, seen);
    } else {
      assert seen[..|seen|] == seen;
    }
  }

  lemma ExtendsTrans(c: seq<string>, b: seq<string>, a: seq<string>)
    requires Extends(c, b) && Extends(b, a)
    ensures Extends(c, a)
  {
    assert c[..|b|][..|a|] == c[..|a|];
  }

  /** Names are only ever added: the names seen before stay, in order. */
  lemma {:induction false} DataRowsSeenGrows(lines: seq<string>, headerCount: nat, hm: map<string, nat>, seen: seq<string>)
    ensures Extends(DataRows(lines, headerCount, hm, seen).1, seen)
  {
    if lines != [] {
      var init := lines[..|lines| - 1];
      var before := DataRows(init, headerCount, hm, seen).1;
      DataRowsSeenGrows(init, headerCount, hm, seen);
      LineRowsDays(lines[|lines| - 1], headerCount, hm, before);
      ExtendsTrans(DataRows(lines, headerCount, hm, seen).1, before, seen);
    }
  }

  lemma DayInPrefix(seen: seq<string>, after: seq<string>, workout: string)
    requires workout in seen
    requires Extends(after, seen)
    ensures workout in after && DayIn(after, workout) == DayIn(seen, workout)
  {
    var i := Position(seen, workout);
    assert after[i] == after[..|seen|][i];
    assert forall k :: 0 <= k < i ==> after[k] == after[..|seen|][k];
  }

  /** Days read in a table stay the same in any table extending it. */
  lemma DaysFromExtends(rows: seq<OutputRow>, seen: seq<string>, after: seq<string>)
    requires DaysFrom(rows, seen) && Extends(after, seen)
    ensures DaysFrom(rows, after)
  {
    forall j | 0 <= j < |rows|
      ensures rows[j].workout in after && rows[j].day == Some(DayIn(after, rows[j].workout))
    {
      DayInPrefix(seen, after, rows[j].workout);
    }
  }

  lemma DaysFromConcat(a: seq<OutputRow>, b: seq<OutputRow>, seen: seq<string>)
    requires DaysFrom(a, seen) && DaysFrom(b, seen)
    ensures DaysFrom(a + b, seen)
  {
    forall j | 0 <= j < |a + b|
      ensures (a + b)[j].workout in seen && (a + b)[j].day == Some(DayIn(seen, (a + b)[j].workout))
    {
      if j >= |a| {
        assert (a + b)[j] == b[j - |a|];
      }
    }
  }

  /** Same workout, same day: every row's day is its workout's day in the
      final table, whichever line or week the row came from. */
  lemma {:induction false} DaysConsistent(lines: seq<string>, headerCount: nat, hm: map<string, nat>, seen: seq<string>)
    ensures DaysFrom(DataRows(lines, headerCount, hm, seen).0, DataRows(lines, headerCount, hm, seen).1)
  {
    if lines != [] {
      var init := lines[..|lines| - 1];
      var before := DataRows(init, headerCount, hm, seen);
      DaysConsistent(init, headerCount, hm, seen);
      var last := LineRows(lines[|lines| - 1], headerCount, hm, before.1);
      LineRowsDays(lines[|lines| - 1], headerCount, hm, before.1);
      DaysFromExtends(before.0, before.1, last.1);
      DaysFromConcat(before.0, last.0, last.1);
    }
  }

  /** A kept line with k working sets gives exactly k rows numbered 1 to k;
      only row k has the last-set RPE, and each row's reps follow the reps
      rules. A skipped line gives no row and assigns no day. */
  lemma LineRowsSets(line: string, headerCount: nat, hm: map<string, nat>, seen: seq<string>)
    ensures Skipped(line, headerCount, hm) ==> LineRows(line, headerCount, hm, seen) == ([], seen)
    ensures !Skipped(line, headerCount, hm) ==>
      var values := CsvFields(line);
      var rows := LineRows(line, headerCount, hm, seen).0;
      var k := SetCount(WorkingSets(Column(values, hm, "working sets")));
      && |rows| == k
      && forall j :: 0 <= j < k ==>
           && rows[j].setNumber == j + 1
           && rows[j].rpe == (if j + 1 == k then ParseRpe(Column(values, hm, "last set rpe")) else ParseRpe(Column(values, hm, "early set rpe")))
           && rows[j].reps == RepsForSet(Column(values, hm, "reps").value, j + 1)
           && rows[j].week == Column(values, hm, "week").value
           && rows[j].workout == Column(values, hm, "workout").value
  {
  }
}
