# eternal-fitness: a verified model of the training tracker's core logic

This project models in Dafny the deterministic core of the eternal-fitness
training tracker and proves properties of it. The core covers:

- **Program spreadsheet conversion.** `scripts/convert-program-csv.js` and
  `scripts/transform-week1.js` turn a program sheet into the flat,
  one-row-per-set "FitCSV" file. The model includes:
  - the quote-aware field splitter;
  - the annotation regexes for superset group, `(NEW)`, `(optional)` and
    `(Mechanical Dropset)`;
  - the RPE parser and the notes builder;
  - first-seen day numbering;
  - the header checks;
  - the per-set row expansion.
- **Program structuring and import** (`lib/csv/import-to-db.ts`):
  - grouping flat rows into week, workout, exercise and sets, then sorting and
    numbering them;
  - the three-stage exercise-definition match;
  - the rule that a user has a single active program.
- **The program cloner and its worker**
  (`cloud-functions/clone-program/src/cloning.ts`, `index.ts`):
  - the cloner is a per-week loop that writes a heartbeat status, then one
    week, then `ready`;
  - the HTTP handler validates the Pub/Sub message, dispatches on the program
    type, and on failure marks the program `failed`.
- **The client sync state** (`hooks/useSyncState.ts`):
  - the state record and its six actions, as partial merges computed from the
    rendered snapshot;
  - the derived status;
  - the error-message mapping and the "time since" text.
- **The on-screen debug log** (`lib/debug/mobile-logger.ts`): a FIFO bounded
  at 100 entries, with its listener set and the text export.
- **The workout draft cache** (`hooks/useWorkoutStorage.ts`): localStorage
  drafts under `workout-<id>`, with a 14-day TTL sweep, load-or-evict,
  save-when-non-empty, and clear.
- **The history list** (`components/WorkoutHistoryList.tsx`): the expand
  toggle, and the per-exercise grouping and sorting of logged sets.

### How the model is built

JavaScript's own semantics are written out:

- `Map` and `Set` iterate in insertion order. They are modelled as a key
  sequence plus a `map`, or as a sequence.
- `Array.prototype.sort` is stable. It is modelled as a stable insertion sort.
- `trim` uses JavaScript's whitespace set.
- `%` truncates toward zero.
- `Object.entries` lists integer-like keys first, in ascending order, then the
  other keys in insertion order.
- A template literal renders `undefined` as "undefined" and `Array.join`
  renders it as "".

Mutable program state becomes classes whose methods are proved against
specification functions:

| class | source state |
|---|---|
| the cloner's `ProgramStore` | a Prisma table |
| `SyncTracker` | the hook's state |
| `MobileLogger` | the logger's fields |
| `LocalStorage` and `WorkoutDraft` | localStorage and the hook's state |
| `HistoryList` | the component's state |
| `DayAssigner` | the day counter |
| `Database` | the import tables |

Loops stay loops, and each carries its invariants: the CSV scanner, the row
expansion, grouping, the clone loop, the error-table scan and the storage
sweep.

Clock readings, `JSON.parse`, `JSON.stringify`, base64 decoding, `fetch`
results and write failures of the store are parameters.

### Where the code and its documentation disagree

The model follows the code in every case below.

- **Error-table order.** The error table in `getDisplayError` is commonly read
  as being checked in its written order. The code enumerates it with
  `Object.entries`, which visits the keys "401", "403", "404", "422" and "500"
  before the named patterns. So an error naming both "500" and "fetch failed"
  shows the server-error message (`SyncTracking.NumericKeysFirst`).
- **The 3-digit branch.** Its `errorMap[status]` lookup can never succeed
  (`SyncTracking.CodeLookupMisses`).
- **A failed clone.** The cloner never catches a failure itself. The handler
  in `index.ts` writes `failed` and answers 500.

## Model

| member | source | states |
|---|---|---|
| Annotations.FirstMatchFrom | scripts/convert-program-csv.js:61-64 | the position found is a match of the pattern and no earlier position matches; `None` means no position matches (leftmost-match semantics of `replace`/`match`) |
| Annotations.ExtractExerciseGroup | scripts/convert-program-csv.js:50-56 | a group is returned exactly when some position holds a `(Superset [AB]\d+)` tag, and it is the letter of the leftmost such tag (the character after `(Superset `); that letter is of the class `[AB]` under the `i` flag, and exactly 'A' or 'B' without it (the case-sensitive variant of scripts/transform-week1.js:47-53) |
| Annotations.RemoveFirst | scripts/convert-program-csv.js:61-64 | `replace` with a non-global pattern: with no match anywhere the text is unchanged; otherwise the text is cut at its leftmost match, exactly the matched characters removed and everything before and after kept |
| Annotations.CleanExerciseName | scripts/convert-program-csv.js:59-66 | the cleaned name is trimmed and no longer than the input; a name in which none of the four annotations matches anywhere is only trimmed (the four leftmost cuts in order are stated by `RemoveFirst`, and `SupersetTagged` and `LiteralTagged` give the result for tagged names) |
| Annotations.CleanPlainName | scripts/convert-program-csv.js:59-66 | a name with no parenthesis is only trimmed and has no group |
| Annotations.SupersetTagged | scripts/convert-program-csv.js:50-66 | a name `base(Superset L<digits>)` yields group L and cleans to the trimmed base, with or without case folding |
| Annotations.LiteralTagged | scripts/transform-week1.js:56-63 | a name `base(NEW)`, `base(optional)` or `base(Mechanical Dropset)` cleans to the trimmed base and has no group |
| Annotations.LiteralTagRemoved | scripts/transform-week1.js:59-61 | replacing a literal annotation cuts exactly that annotation out |
| Annotations.ParseRpeRange | scripts/convert-program-csv.js:69-76 | "a-b" parses to b, the upper bound |
| Annotations.ParseRpeSingle | scripts/convert-program-csv.js:69-76 | a single number parses to itself |
| Annotations.ParseRpeTilde | scripts/convert-program-csv.js:71 | a leading "~" is ignored |
| Annotations.ParseRpePlain | scripts/convert-program-csv.js:72-75 | an RPE text without "~" is read by the number pattern alone |
| Annotations.ParseRpeAbsent | scripts/convert-program-csv.js:70 | missing, empty and "N/A" give null |
| Text.Trim | scripts/convert-program-csv.js:28 | the result is trimmed with JavaScript's whitespace set; trimmed text is unchanged |
| Text.TrimSpan | scripts/convert-program-csv.js:28 | the trimmed text is a slice of the input with only whitespace cut on either side |
| Text.TrimEmptyIff | scripts/convert-program-csv.js:81 | a string trims to "" exactly when it is all whitespace |
| Text.Contains | scripts/convert-program-csv.js:176 | `includes` holds exactly when the pattern occurs at some index |
| Text.ReplaceFirst | scripts/convert-program-csv.js:71 | string `replace` changes nothing when the pattern is absent, and otherwise substitutes its leftmost occurrence |
| Text.SplitOn | scripts/convert-program-csv.js:177 | `split` gives at least one part, no part holds the separator, and joining the parts gives back the input |
| Text.SplitJoin | scripts/convert-program-csv.js:177 | splitting a join of separator-free parts gives back the parts |
| Text.ToLower | scripts/convert-program-csv.js:117 | `toLowerCase` lowers each character in place (ASCII) |
| Text.NatToString | cloud-functions/clone-program/src/cloning.ts:70 | a template literal renders a natural as digits with no leading zero whose value is the number |
| Text.NatToStringInjective | cloud-functions/clone-program/src/cloning.ts:70 | two naturals render alike only when equal |
| Text.ParseIntNatToString | scripts/convert-program-csv.js:148 | `parseInt` reads back a rendered natural |
| Text.IntToString | components/WorkoutHistoryList.tsx:133 | an integer renders as its digits, with a leading "-" when negative |
| Text.ParseIntDigits | scripts/convert-program-csv.js:148 | `parseInt` of a digit string is its decimal value |
| FitCsv.RepsPerSet | scripts/convert-program-csv.js:176-188 | reps "a/b/c" give set i the i-th part, and a set past the last part the text "undefined" |
| FitCsv.RepsDropset | scripts/convert-program-csv.js:180-182 | reps "5+4+3+" give every set the text before the first "+" |
| FitCsv.RepsPlain | scripts/convert-program-csv.js:173 | other reps are used as given |
| FitCsv.SetCount | scripts/convert-program-csv.js:185 | the loop runs `workingSets` times for a positive count and never otherwise (including NaN) |
| FitCsv.SetRows | scripts/convert-program-csv.js:185-204 | one row per working set, row j numbered j+1 |
| FitCsv.SetRowsShape | scripts/convert-program-csv.js:185-201 | row j has set number j+1, the last-set RPE exactly on the last set and the early RPE otherwise, its set's reps, and the entry's week, day, workout, exercise, group and notes |
| FitCsv.ExpandSets | scripts/convert-program-csv.js:185-204 | the loop emits exactly the rendered rows of the set expansion, `SetCount` of them |
| FitCsv.RenderAllConcat | scripts/convert-program-csv.js:203 | rendering distributes over concatenation of rows |
| ConvertProgramCsv.ParseCsvLine | scripts/convert-program-csv.js:17-36 | the character loop returns the fields of the specification `CsvFields` |
| ConvertProgramCsv.ScanInvariant | scripts/convert-program-csv.js:22-33 | after a scan, `inQuotes` holds exactly when an odd number of quotes was seen; one field is closed per comma outside quotes; the raw fields joined by commas are the line without its quotes; no field holds a quote |
| ConvertProgramCsv.ParseCsvLineFields | scripts/convert-program-csv.js:22-35 | a line gives one more field than it has commas outside quotes; each field is the trimmed raw field, trimmed and free of quotes |
| ConvertProgramCsv.ParseCsvLinePlain | scripts/convert-program-csv.js:22-35 | a line without quotes is split on every comma and each part trimmed |
| ConvertProgramCsv.ParseRenderedRow | scripts/convert-program-csv.js:190-203 | parsing a rendered output row gives back its ten values, unquoted, in header order: week, day (empty if undefined), workout, exercise, group letter or empty, set number, reps, an empty weight, RPE (`rpe \|\| ''`), notes (round trip of the writer through the reader) |
| ConvertProgramCsv.DayStable | scripts/convert-program-csv.js:42-47 | once a workout has a day, assigning any other workout leaves its day unchanged |
| ConvertProgramCsv.DayAssigner.constructor | scripts/convert-program-csv.js:39-40 | an empty map and `nextDayNum` 1 |
| ConvertProgramCsv.DayAssigner.GetOrAssignDay | scripts/convert-program-csv.js:42-47 | a known workout gets its stored day and nothing changes; a new one gets `nextDayNum`, which then grows by one; the day is the workout's first-seen position plus one |
| ConvertProgramCsv.AssignAllFirstSeen | scripts/convert-program-csv.js:39-47 | the names are numbered in first-seen order, each distinct name once |
| ConvertProgramCsv.BuildNotesOrder | scripts/convert-program-csv.js:79-91 | the notes are "Rest: r. Technique: t. n", in that order |
| ConvertProgramCsv.BuildNotesOmitsRest | scripts/convert-program-csv.js:81-83 | a rest of "N/A" or blank is left out |
| ConvertProgramCsv.BuildNotesOmitsTechnique | scripts/convert-program-csv.js:84-86 | a technique of "None" or blank is left out |
| ConvertProgramCsv.BuildNotesOmitsNotes | scripts/convert-program-csv.js:87-89 | blank notes are left out |
| ConvertProgramCsv.BuildNotesEmpty | scripts/convert-program-csv.js:79-91 | the notes are empty exactly when no part is kept |
| ConvertProgramCsv.HeaderMapKeys | scripts/convert-program-csv.js:115-119 | the header map's keys are exactly the trimmed, lower-cased headers |
| ConvertProgramCsv.HeaderMapLast | scripts/convert-program-csv.js:115-119 | a repeated header maps to its last index |
| ConvertProgramCsv.BuildHeaderMap | scripts/convert-program-csv.js:115-119 | the `forEach` loop builds the header map |
| ConvertProgramCsv.FirstMissing | scripts/convert-program-csv.js:122-127 | no column is reported exactly when all required columns are present |
| ConvertProgramCsv.FirstMissingFirst | scripts/convert-program-csv.js:122-127 | the reported column is the first required one that is missing |
| ConvertProgramCsv.CheckRequired | scripts/convert-program-csv.js:122-127 | the loop reports `FirstMissing` |
| ConvertProgramCsv.NonBlank | scripts/convert-program-csv.js:98 | the filter keeps only lines that are not blank, each from the input, and keeps every line that is not blank |
| ConvertProgramCsv.NonBlankOne | scripts/convert-program-csv.js:98 | a single line is kept exactly when its trimmed text is not empty |
| ConvertProgramCsv.NonBlankConcat | scripts/convert-program-csv.js:98 | filtering a concatenation is the concatenation of the filtered parts, so the kept lines keep their order |
| ConvertProgramCsv.ConvertProgram | scripts/convert-program-csv.js:94-219 | an input with no non-blank line fails with "Input file is empty"; a missing column fails with "Missing required column: c" for the first missing c; in both cases no day is assigned; otherwise the output is the header then the rows of every data line, joined by newlines |
| ConvertProgramCsv.ConvertLines | scripts/convert-program-csv.js:134-205 | the data loop emits the rendered rows of every line in order, threading the day map |
| ConvertProgramCsv.ProcessRow | scripts/convert-program-csv.js:135-204 | one line emits the rows `LineRows` gives and assigns its day |
| ConvertProgramCsv.LineRowsSets | scripts/convert-program-csv.js:136-204 | a blank line, a short line or one missing week, workout, exercise or reps or with zero sets emits nothing and assigns no day; otherwise k rows for k working sets, numbered 1..k, last-set RPE exactly on row k, reps per set, the line's week and workout |
| ConvertProgramCsv.EntryRows | scripts/convert-program-csv.js:156-166 | every row of a kept line carries its workout and that workout's day |
| ConvertProgramCsv.LineRowsDays | scripts/convert-program-csv.js:156-166 | one line only extends the first-seen workout list, and each row it emits carries its workout's first-seen day |
| ConvertProgramCsv.DaysConsistent | scripts/convert-program-csv.js:161-162 | across the whole file every row's day is its workout's first-seen position plus one, so one workout has one day in all weeks |
| ConvertProgramCsv.DataRowsSeenGrows | scripts/convert-program-csv.js:134-205 | the day map only grows: names seen keep their order and days |
| TransformWeek1.DayForExactly | scripts/transform-week1.js:38-44 | the day lookup gives k exactly for "Full Body #k" with 1 <= k <= 5 |
| TransformWeek1.SimpleNotesOrder | scripts/transform-week1.js:76-82 | the notes are "Rest: r. Technique: t. n", in that order |
| TransformWeek1.SimpleNotesOmits | scripts/transform-week1.js:78-79 | rest "N/A" and technique "None" are left out like empty ones |
| TransformWeek1.SimpleNotesAgree | scripts/transform-week1.js:76-82 | on parts that are empty or not blank the simpler notes builder agrees with the one in the converter |
| TransformWeek1.SimpleNotesKeepsBlank | scripts/transform-week1.js:80 | the two builders differ on a blank note, which only this one keeps |
| TransformWeek1.Transform | scripts/transform-week1.js:85-133 | the output is the fixed header followed by the rendered rows of every entry in order |
| TransformWeek1.EmitEntry | scripts/transform-week1.js:113-132 | the inner loop emits the rendered rows of one entry |
| TransformWeek1.EntryRows | scripts/transform-week1.js:94 | an entry gives `workingSets` rows |
| TransformWeek1.EntryRowsShape | scripts/transform-week1.js:89-125 | row j has week 1, the fixed day of its workout, set number j+1, the last-set RPE exactly on the last row, and its set's reps |
| TransformWeek1.TransformEntryRows | scripts/transform-week1.js:88-133 | the rows of entry i sit together, in order, in the output |
| TransformWeek1.AllRowsWeekDay | scripts/transform-week1.js:89-90 | every output row has week 1 and the day from the fixed map |
| ProgramStructure.DayKeyInjective | lib/csv/import-to-db.ts:77 | the key `${day}-${workoutName}` is equal for two rows exactly when day and name both are |
| ProgramStructure.NameKeyCollides | lib/csv/import-to-db.ts:93 | the key `${exercise}-${group \|\| ''}` is not injective: "Press-" without a group and "Press" with group "-" share it |
| ProgramStructure.StructureProgram | lib/csv/import-to-db.ts:56-149 | the method builds the program of the specification function `Structure` |
| ProgramStructure.BuildWeeks | lib/csv/import-to-db.ts:70-136 | the loop over the week map builds the weeks of `WeeksOf`, one per distinct week number in first-seen order |
| ProgramStructure.BuildWeek | lib/csv/import-to-db.ts:73-136 | one week from its rows |
| ProgramStructure.BuildWorkouts | lib/csv/import-to-db.ts:75-130 | the week's workouts, grouped and then sorted by day |
| ProgramStructure.BuildWorkout | lib/csv/import-to-db.ts:87-127 | one workout, named and numbered from its first row |
| ProgramStructure.BuildExercises | lib/csv/import-to-db.ts:91-120 | the workout's exercises, grouped by key and numbered by the counter |
| ProgramStructure.StructureConserves | lib/csv/import-to-db.ts:62-119 | every input row becomes exactly one prescribed set: the sets are a permutation of the rows' sets |
| ProgramStructure.WorkoutConserves | lib/csv/import-to-db.ts:91-119 | a workout holds exactly one set per row of its group |
| ProgramStructure.WeekConserves | lib/csv/import-to-db.ts:75-127 | a week holds exactly one set per row of its group |
| ProgramStructure.StructureWeeksOrder | lib/csv/import-to-db.ts:139-144 | one week per distinct week number, in strictly ascending order, and `totalWeeks` is their count |
| ProgramStructure.StructureWeeksGroups | lib/csv/import-to-db.ts:62-68 | each week is built from exactly the rows with its week number, of which there is at least one |
| ProgramStructure.StructureWeeksCover | lib/csv/import-to-db.ts:62-68 | every row's week number has a week |
| ProgramStructure.WeekWorkoutsOrder | lib/csv/import-to-db.ts:130 | workouts are sorted by day, and workouts of one day keep their first-seen order (stable sort) |
| ProgramStructure.WeekWorkoutsDistinct | lib/csv/import-to-db.ts:75-83 | no two workouts of a week share both day and name |
| ProgramStructure.WeekWorkoutsGroups | lib/csv/import-to-db.ts:75-83 | each workout is built from exactly the rows with its (day, name); every row has its workout |
| ProgramStructure.WorkoutIds | lib/csv/import-to-db.ts:75-87 | the workouts, before sorting, are the distinct (day, name) keys in first-seen order |
| ProgramStructure.WorkoutExercises | lib/csv/import-to-db.ts:91-110 | exercises get order 0, 1, 2, … in first-appearance order; each holds its key's rows' sets in input order; keys are distinct; every row has its exercise |
| ProgramStructure.StructureSets | lib/csv/import-to-db.ts:112-118 | an exercise's prescribed sets are, in input order, the rows with its week, workout and exercise key |
| ImportToDb.Find | lib/csv/import-to-db.ts:25-27 | `findFirst` gives the first definition in table order satisfying the condition, or none when no definition does |
| ImportToDb.MatchStages | lib/csv/import-to-db.ts:22-50 | an exact normalised-name match wins first; otherwise an alias match; only when neither exists is a definition created with the given name, the trimmed lower-cased normalised name, no aliases, `isSystem` false and `createdBy` the user; lookups change nothing |
| ImportToDb.MatchResolves | lib/csv/import-to-db.ts:22-50 | the returned id is a definition of the resulting table that matches the name; the table only grows; ids stay fresh |
| ImportToDb.FindAppended | lib/csv/import-to-db.ts:39-48 | a definition created because none matched is the one a later lookup finds |
| ImportToDb.MatchIdempotent | lib/csv/import-to-db.ts:22-50 | matching a name that normalises alike again finds the same definition and creates nothing more |
| ImportToDb.MatchIgnoresCase | lib/csv/import-to-db.ts:22 | names equal after trim and lower-casing get the same definition |
| ImportToDb.Database.MatchExerciseDefinition | lib/csv/import-to-db.ts:17-51 | the method returns the id of `Match` and leaves the definition table as `Match` leaves it |
| ImportToDb.Database.ImportExercises | lib/csv/import-to-db.ts:193-223 | the exercise records of one workout, each linked to its matched definition |
| ImportToDb.Database.ImportWorkouts | lib/csv/import-to-db.ts:184-224 | the workout records of one week |
| ImportToDb.Database.ImportWeeks | lib/csv/import-to-db.ts:176-225 | the week records of the program |
| ImportToDb.Database.ImportProgramToDatabase | lib/csv/import-to-db.ts:154-231 | the user's programs are deactivated and one active program with the imported weeks is appended; afterwards it is the user's only active program |
| ImportToDb.DeactivateEffect | lib/csv/import-to-db.ts:161-164 | `updateMany` clears `isActive` on exactly the user's programs and changes nothing else |
| ImportToDb.DeactivateKeepsOne | lib/csv/import-to-db.ts:161-164 | deactivation keeps at most one active program per user |
| ImportToDb.OnlyNewActive | lib/csv/import-to-db.ts:161-173 | after deactivation and create, the new program is the user's only active program, and every user has at most one |
| ImportToDb.ExerciseRecordsCopy | lib/csv/import-to-db.ts:201-222 | the exercise records keep name, order, group, notes and sets of the structured exercises |
| ImportToDb.WorkoutRecordsCopy | lib/csv/import-to-db.ts:185-191 | the workout records keep name, day and exercises |
| ImportToDb.WeekRecordsCopy | lib/csv/import-to-db.ts:177-182 | the week records keep week number and workouts |
| ImportToDb.ExerciseRecordsResolve | lib/csv/import-to-db.ts:195-204 | every exercise record links to a definition present in the final table |
| ImportToDb.WorkoutRecordsResolve | lib/csv/import-to-db.ts:184-224 | every exercise of every workout links to a present definition |
| ImportToDb.WeekRecordsResolve | lib/csv/import-to-db.ts:176-225 | every exercise of the program links to a present definition |
| Cloning.ExerciseCopied | cloud-functions/clone-program/src/cloning.ts:85-103 | the exercise row reads back as the source exercise with a missing `prescribedSets` as none |
| Cloning.WorkoutCopied | cloud-functions/clone-program/src/cloning.ts:80-106 | the workout row reads back as the source workout |
| Cloning.StrengthWeekCopied | cloud-functions/clone-program/src/cloning.ts:74-109 | the week row has the source week number, the job's program, and reads back as its workouts; a missing `workouts` list gives none |
| Cloning.CardioWeekCopied | cloud-functions/clone-program/src/cloning.ts:139-160 | the cardio week has the source week number, the job's program, reads back as its sessions; a missing `sessions` list gives none |
| Cloning.StrengthWeekOwned | cloud-functions/clone-program/src/cloning.ts:78-100 | the week, every workout, exercise and set carry the job's user |
| Cloning.CardioSessionsOwned | cloud-functions/clone-program/src/cloning.ts:143-156 | the cardio week and every session carry the job's user |
| Cloning.StrengthWeeks | cloud-functions/clone-program/src/cloning.ts:65-111 | one week row per source week, in order |
| Cloning.StrengthWeeksOwned | cloud-functions/clone-program/src/cloning.ts:76-100 | every week row keeps its week number and is owned by the job's user |
| Cloning.CardioWeeks | cloud-functions/clone-program/src/cloning.ts:130-162 | one cardio week per source week, in order, with its week number and owned by the user |
| Cloning.ProgramStore.UpdateStatus | cloud-functions/clone-program/src/cloning.ts:68-71 | `update` of an existing row sets its status; on a missing row it fails and changes nothing |
| Cloning.ProgramStore.CreateWeek | cloud-functions/clone-program/src/cloning.ts:73-110 | a week transaction appends the week, or fails and appends nothing |
| Cloning.StepsShape | cloud-functions/clone-program/src/cloning.ts:65-73 | for week i of n, the status `cloning_week_{i+1}_of_{n}` is written immediately before that week is created |
| Cloning.StepsCreated | cloud-functions/clone-program/src/cloning.ts:65-111 | the first k iterations create exactly the first k weeks, in source order |
| Cloning.StepsStatuses | cloud-functions/clone-program/src/cloning.ts:68-71 | every status the loop writes is a heartbeat of this program |
| Cloning.HeartbeatNotReady | cloud-functions/clone-program/src/cloning.ts:70 | no heartbeat equals `ready` |
| Cloning.HeartbeatInjective | cloud-functions/clone-program/src/cloning.ts:70 | two heartbeats are equal exactly when their week and total are |
| Cloning.LastStatusSnoc | cloud-functions/clone-program/src/cloning.ts:113-116 | the last status write decides the row's status |
| Cloning.CloneSucceeds | cloud-functions/clone-program/src/cloning.ts:65-116 | with no failure, exactly n weeks are created in source order, each after its heartbeat, then `ready` is the final status |
| Cloning.CloneNoWeeks | cloud-functions/clone-program/src/cloning.ts:63-65 | with zero weeks the status goes straight to `ready` and no week is created |
| Cloning.CloneFails | cloud-functions/clone-program/src/cloning.ts:65-116 | if week k's transaction throws, weeks 0..k-1 stay, the status is left at `cloning_week_{k+1}_of_{n}`, and `ready` is never written |
| Cloning.CloneMissingRow | cloud-functions/clone-program/src/cloning.ts:68-71 | without the shell row the first update throws: nothing is written |
| Cloning.CloneOneRow | cloud-functions/clone-program/src/cloning.ts:68-116 | a run writes statuses of its own program only |
| Cloning.CloneStrengthProgramData | cloud-functions/clone-program/src/cloning.ts:58-117 | the store afterwards holds the journal, weeks and statuses of the strength run, and the run's outcome is returned |
| Cloning.CloneCardioProgramData | cloud-functions/clone-program/src/cloning.ts:123-168 | the same for the cardio table |
| Cloning.CloneWeeks | cloud-functions/clone-program/src/cloning.ts:65-116 | the loop performs exactly the writes of the run `Clone` and returns its outcome; no program row is added or removed |
| Cloning.CloneWeek | cloud-functions/clone-program/src/cloning.ts:66-110 | one pass: the heartbeat lands exactly on an existing row, the week transaction then commits exactly when the database does not reject it, and the store records exactly the writes that landed |
| Cloning.Write | cloud-functions/clone-program/src/cloning.ts:68-110 | one write through the store: a status write succeeds exactly on an existing row, a week write exactly when not rejected, and the journal, weeks and statuses follow |
| Cloning.ApplyLast | cloud-functions/clone-program/src/cloning.ts:68-116 | a row's status after a run is the last status written to it, or the old one |
| CloneWorker.Validate | cloud-functions/clone-program/src/index.ts:19-41 | a missing message or data is rejected as missing; an undecodable payload as invalid; a payload without truthy `programId`, `userId`, `programData`, `programType` as missing fields; otherwise the job carries these fields |
| CloneWorker.HandleRequest | cloud-functions/clone-program/src/index.ts:17-82 | the handler answers as `Handle` and the two stores receive exactly `Handle`'s writes |
| CloneWorker.RunCardioJob | cloud-functions/clone-program/src/index.ts:45-76 | a cardio job answers 200 exactly when its cloner returns normally; on failure the `failed` mark follows the cloner's writes and the answer is 500 |
| CloneWorker.RunStrengthJob | cloud-functions/clone-program/src/index.ts:45-76 | the same for any other job type, on the strength tables |
| CloneWorker.GetIsHealthy | cloud-functions/clone-program/src/index.ts:80-82 | `GET /` answers 200 and writes nothing |
| CloneWorker.BadRequest | cloud-functions/clone-program/src/index.ts:19-41 | a 400 is given exactly when validation rejects, and then nothing is written |
| CloneWorker.Dispatch | cloud-functions/clone-program/src/index.ts:46-50 | "cardio" runs the cardio cloner only; any other type runs the strength cloner only |
| CloneWorker.Outcome | cloud-functions/clone-program/src/index.ts:52-76 | a valid job answers 200 "OK" exactly when its cloner succeeds, and 500 otherwise |
| CloneWorker.FailureMarksRow | cloud-functions/clone-program/src/index.ts:54-76 | after a failure with an existing row its last status is `failed`; with no row nothing is written; the answer is 500 either way |
| SyncTracking.MergeLaws | hooks/useSyncState.ts:68-70 | merging no updates changes nothing; merging the same updates twice is the same as once |
| SyncTracking.Max0 | hooks/useSyncState.ts:85 | `Math.max(0, x)` is never negative, is at least x, and is 0 or x |
| SyncTracking.StartSyncEffect | hooks/useSyncState.ts:73-79 | sets status syncing, `isRetrying` false and pending to p; every other field is kept |
| SyncTracking.SyncSuccessEffect | hooks/useSyncState.ts:82-93 | status synced, pending `max(0, pending - c)` (never negative), total + c, `lastSync` now, no error, `retryCount` 0, not retrying |
| SyncTracking.SyncErrorEffect | hooks/useSyncState.ts:96-107 | status error with the message; `retryCount` grows by one exactly when `willRetry`; `isRetrying` is `willRetry`; pending, total and `lastSync` are kept |
| SyncTracking.StartRetryEffect | hooks/useSyncState.ts:110-117 | status syncing, retrying, no error; `retryCount` and the rest kept |
| SyncTracking.ResetRetriesEffect | hooks/useSyncState.ts:120-126 | `retryCount` 0, not retrying, no error; status, pending and total kept |
| SyncTracking.AddPendingEffect | hooks/useSyncState.ts:129-133 | pending becomes the rendered pending + c; nothing else changes |
| SyncTracking.AddPendingTwiceBeforeRender | hooks/useSyncState.ts:129-133 | two calls between renders add only the second count, since both read the same rendered snapshot |
| SyncTracking.CurrentStatus | hooks/useSyncState.ts:62-65 | offline exactly when offline; online, syncing exactly when retrying or syncing; error exactly when online, not retrying and in error; synced otherwise |
| SyncTracking.Lookup | hooks/useSyncState.ts:164 | `errorMap[key]` finds an entry exactly when some entry has that key, and gives the message of the first entry with the key (by `ErrorTableKeysDistinct`, the only one) |
| SyncTracking.ErrorTableKeysDistinct | hooks/useSyncState.ts:139-151 | the keys of `errorMap` are pairwise distinct |
| SyncTracking.FirstMatchFrom | hooks/useSyncState.ts:154-158 | the entry found is contained in the error and no earlier one is; none found means none is contained |
| SyncTracking.StatusCode | hooks/useSyncState.ts:161 | `/(\d{3})/` captures three digits that occur in the error, and fails exactly when no three digits are adjacent; when it succeeds the capture is the leftmost run of three digits |
| SyncTracking.Truncate | hooks/useSyncState.ts:168-170 | up to 50 characters are kept as they are; longer text is cut to its first 50 characters plus "..." |
| SyncTracking.DisplayErrorOf | hooks/useSyncState.ts:136-171 | the early-return loop computes the specification `DisplayErrorWith` |
| SyncTracking.DisplayErrorNone | hooks/useSyncState.ts:137 | null exactly when there is no error or it is empty |
| SyncTracking.DisplayErrorKnown | hooks/useSyncState.ts:154-158 | the first entry, in enumeration order, contained in the error gives the message |
| SyncTracking.FirstMatchWins | hooks/useSyncState.ts:154-158 | for any table, the first contained key decides the message |
| SyncTracking.NumericKeysFirst | hooks/useSyncState.ts:139-158 | an error containing "500" and no other code gives the server-error message even when it also names a pattern written earlier in the table |
| SyncTracking.CodeLookupMisses | hooks/useSyncState.ts:161-165 | when no key matched, the status-code lookup always misses, so a 3-digit code gives "Server error (NNN)" |
| SyncTracking.CodeNotAKey | hooks/useSyncState.ts:154-164 | for any table, a text found in an error that matched no key is itself no key, so `errorMap[status]` misses |
| SyncTracking.DisplayErrorFallback | hooks/useSyncState.ts:167-170 | with no key and no code the raw error is shown, cut to at most 53 characters |
| SyncTracking.JsRem | hooks/useSyncState.ts:180 | JavaScript `%` keeps the sign of the dividend and is smaller than the divisor in magnitude |
| SyncTracking.JsRemDivision | hooks/useSyncState.ts:180 | JavaScript `%` is the remainder of the division truncated toward zero: `a == b * q + a % b` where q is zero or has the sign of a |
| SyncTracking.TimeSinceMinutes | hooks/useSyncState.ts:179-183 | a difference of a minute or more gives "Nm ago" with the whole minutes |
| SyncTracking.TimeSinceSeconds | hooks/useSyncState.ts:180-185 | 31 to 59 whole seconds give "Ns ago" |
| SyncTracking.TimeSinceJustNow | hooks/useSyncState.ts:184-187 | anything under 31 seconds, including a clock running behind, gives "just now" |
| SyncTracking.SyncTracker.constructor | hooks/useSyncState.ts:21-36 | the initial state, rendered as such |
| SyncTracking.SyncTracker.Render | hooks/useSyncState.ts:21-29 | a render makes the current state the snapshot that callbacks read |
| SyncTracking.SyncTracker.SetOnline | hooks/useSyncState.ts:42-53 | the online flag follows the window events |
| SyncTracking.SyncTracker.UpdateSyncState | hooks/useSyncState.ts:68-70 | the state becomes `{...prev, ...updates}` |
| SyncTracking.SyncTracker.StartSync | hooks/useSyncState.ts:73-79 | merges the start-sync updates |
| SyncTracking.SyncTracker.SyncSuccess | hooks/useSyncState.ts:82-93 | merges the success updates computed from the rendered snapshot; pending is never negative afterwards |
| SyncTracking.SyncTracker.SyncError | hooks/useSyncState.ts:96-107 | merges the error updates computed from the rendered `retryCount` |
| SyncTracking.SyncTracker.StartRetry | hooks/useSyncState.ts:110-117 | merges the retry updates |
| SyncTracking.SyncTracker.ResetRetries | hooks/useSyncState.ts:120-126 | merges the reset updates |
| SyncTracking.SyncTracker.AddPendingSets | hooks/useSyncState.ts:129-133 | merges the pending update computed from the rendered snapshot |
| SyncTracking.SyncTracker.GetDisplayError | hooks/useSyncState.ts:136-171 | the message for the rendered `lastError` |
| MobileLogging.Recent | lib/debug/mobile-logger.ts:84-89 | the kept log is the newest `min(n, 100)` entries, a suffix of all added |
| MobileLogging.RecentSnoc | lib/debug/mobile-logger.ts:84-89 | push then shift on the kept log keeps exactly the newest 100 of everything added (FIFO) |
| MobileLogging.PushShift | lib/debug/mobile-logger.ts:84-89 | below the bound an entry is appended; at the bound exactly the oldest entry is dropped |
| MobileLogging.Deliveries | lib/debug/mobile-logger.ts:92 | one call per listener, in set order, each with the same log |
| MobileLogging.ExportSnoc | lib/debug/mobile-logger.ts:114-122 | the export is each entry's block, in order, separated by a blank line |
| MobileLogging.ExportEmpty | lib/debug/mobile-logger.ts:114-122 | an empty log exports as "" |
| MobileLogging.BlockStart | lib/debug/mobile-logger.ts:119 | a block starts with `[time] LEVEL: ` |
| MobileLogging.MobileLogger.constructor | lib/debug/mobile-logger.ts:14-16 | empty log and no listeners |
| MobileLogging.MobileLogger.AddLog | lib/debug/mobile-logger.ts:76-93 | the log becomes the newest 100 entries of everything added, at most 100, and every listener receives the new log |
| MobileLogging.MobileLogger.Notify | lib/debug/mobile-logger.ts:92 | each listener in order receives the snapshot |
| MobileLogging.MobileLogger.Subscribe | lib/debug/mobile-logger.ts:95-99 | the listener is added to the set and immediately receives the current log |
| MobileLogging.MobileLogger.Unsubscribe | lib/debug/mobile-logger.ts:100-102 | the listener is removed from the set; nothing else changes |
| MobileLogging.MobileLogger.GetLogs | lib/debug/mobile-logger.ts:105-107 | a copy of the current log |
| MobileLogging.MobileLogger.Clear | lib/debug/mobile-logger.ts:109-112 | the log is empty and every listener receives the empty list |
| Collections.Adjoin | lib/debug/mobile-logger.ts:96 | `Set.add` keeps the elements distinct, contains the new element, and adds nothing else |
| Collections.Without | lib/debug/mobile-logger.ts:101 | `Set.delete` removes exactly the element |
| Collections.AdjoinWithout | lib/debug/mobile-logger.ts:95-103 | the unsubscribe function undoes a subscribe of a new listener |
| Collections.GroupBy | lib/csv/import-to-db.ts:62-68 | the `forEach` into a fresh `Map` gives one entry per distinct key in first-seen order, holding that key's elements in input order |
| Collections.SortBy | lib/csv/import-to-db.ts:139 | the sort's result is sorted and a permutation of its input |
| Collections.SortByStable | lib/csv/import-to-db.ts:139 | elements with equal keys keep their relative order |
| Collections.RegroupPermutation | lib/csv/import-to-db.ts:62-68 | concatenating the groups in first-seen order is a permutation of the input |
| WorkoutStorage.StorageKey | hooks/useWorkoutStorage.ts:32 | the key is "workout-" followed by the id |
| WorkoutStorage.StorageKeyInjective | hooks/useWorkoutStorage.ts:32 | different workouts have different keys |
| WorkoutStorage.Put | hooks/useWorkoutStorage.ts:131 | `setItem` keeps the store well formed and maps the key to the value |
| WorkoutStorage.Remove | hooks/useWorkoutStorage.ts:62 | `removeItem` keeps the store well formed and drops exactly the key |
| WorkoutStorage.RemoveAllEffect | hooks/useWorkoutStorage.ts:61-63 | removing a list of keys drops exactly those keys and keeps the other values |
| WorkoutStorage.CollectMembers | hooks/useWorkoutStorage.ts:42-58 | the scan collects exactly the keys it visits that carry the prefix and hold an expired or unreadable value |
| WorkoutStorage.SweepEffect | hooks/useWorkoutStorage.ts:35-63 | the sweep removes exactly the `workout-` keys whose value does not parse or is older than the TTL; other keys keep their values and keys without the prefix are never removed |
| WorkoutStorage.CleanupExpiredWorkouts | hooks/useWorkoutStorage.ts:35-68 | the scan visits every original key, then the collected keys are removed: the store becomes `Sweep` of the old one |
| WorkoutStorage.CollectExpired | hooks/useWorkoutStorage.ts:39-58 | the scan returns `Collect` over the keys in storage order, the list whose members `CollectMembers` states are exactly the expiring `workout-` keys, and changes nothing |
| WorkoutStorage.RemoveKeys | hooks/useWorkoutStorage.ts:60-63 | removing the collected keys one by one leaves the store with exactly those keys gone |
| WorkoutStorage.LoadFromEffect | hooks/useWorkoutStorage.ts:80-102 | the load removes no key but the workout's own, and a restored draft leaves the store unchanged |
| WorkoutStorage.ExpiryBoundary | hooks/useWorkoutStorage.ts:49-88 | an age of exactly the TTL survives both the sweep (`>`) and the load (`<=`); one millisecond more and the sweep removes it |
| WorkoutStorage.NaNAge | hooks/useWorkoutStorage.ts:49-95 | a timestamp whose `Number` coercion is NaN (absent, a non-numeric string, an object) survives the sweep but is removed by the load; null, booleans and numeric strings coerce to numbers and are aged like numbers |
| WorkoutStorage.SaveThenLoad | hooks/useWorkoutStorage.ts:117-131 | a saved draft, swept and loaded within the TTL, restores the same sets when `parse` reads back what `serialize` wrote |
| WorkoutStorage.LocalStorage.SetItem | hooks/useWorkoutStorage.ts:131 | the store becomes `Put` of the old one |
| WorkoutStorage.LocalStorage.RemoveItem | hooks/useWorkoutStorage.ts:62 | the store becomes `Remove` of the old one |
| WorkoutStorage.WorkoutDraft.constructor | hooks/useWorkoutStorage.ts:29-30 | no sets, not loaded |
| WorkoutStorage.WorkoutDraft.Load | hooks/useWorkoutStorage.ts:71-114 | the sweep runs first; a readable draft within the TTL is restored (a missing list as none) and an expired or unreadable one removed; the hook is then loaded |
| WorkoutStorage.WorkoutDraft.SetLoggedSets | hooks/useWorkoutStorage.ts:149-151 | replaces the sets |
| WorkoutStorage.WorkoutDraft.Save | hooks/useWorkoutStorage.ts:117-146 | before the load or with no sets the store is unchanged (no write, no delete); otherwise the stamped draft is written, and after a rejected write a sweep runs and the write is retried once |
| WorkoutStorage.WorkoutDraft.ClearStoredWorkout | hooks/useWorkoutStorage.ts:154-160 | removes only this workout's key |
| WorkoutHistory.Toggle | components/WorkoutHistoryList.tsx:75-85 | the id's membership flips and every other id's is unchanged |
| WorkoutHistory.ToggleTwice | components/WorkoutHistoryList.tsx:75-85 | toggling twice restores the set |
| WorkoutHistory.HistoryList.ToggleExpanded | components/WorkoutHistoryList.tsx:75-85 | the expanded set becomes its toggle; nothing else changes |
| WorkoutHistory.ExerciseKeyInjective | components/WorkoutHistoryList.tsx:133 | for non-negative orders the key `${name}-${order}` is equal exactly when name and order are |
| WorkoutHistory.ExerciseKeyCollision | components/WorkoutHistoryList.tsx:133 | a negative order lets two different exercises share a key |
| WorkoutHistory.EntriesKeys | components/WorkoutHistoryList.tsx:131-138 | the groups' keys are the distinct keys of the sets in first-seen order |
| WorkoutHistory.Entries | components/WorkoutHistoryList.tsx:131-141 | one group per distinct key in first-seen order, holding that key's sets in input order |
| WorkoutHistory.SortedGroups | components/WorkoutHistoryList.tsx:131-145 | the grouping and the sort compute the groups of `Entries` sorted by first order |
| WorkoutHistory.EntriesContents | components/WorkoutHistoryList.tsx:131-138 | every group is non-empty and holds exactly the sets with its key, in input order |
| WorkoutHistory.EntriesCover | components/WorkoutHistoryList.tsx:131-138 | every set has a group |
| WorkoutHistory.GroupsPartition | components/WorkoutHistoryList.tsx:131-145 | the sorted groups are sorted by exercise order, have distinct keys, hold exactly their key's sets in input order, and cover every set |
| WorkoutHistory.GroupsConserve | components/WorkoutHistoryList.tsx:131-145 | the groups together hold every logged set exactly once |
| WorkoutHistory.GroupsByOrder | components/WorkoutHistoryList.tsx:141-145 | for non-negative orders all sets of a group share the exercise order, and groups come in ascending order |
| WorkoutHistory.HistoryList.constructor | components/WorkoutHistoryList.tsx:44-47 | no completions, loading, nothing expanded, no request made |
| WorkoutHistory.HistoryList.Mount | components/WorkoutHistoryList.tsx:50-73 | the history is requested exactly when `count` > 0; a successful response replaces the completions and a failed one keeps them; loading ends either way |

## Left out

- Console and window interception in the logger (`interceptConsole`, `interceptErrors`, `formatMessage`): browser plumbing. An entry's `data` is its JSON text and its time the ISO string, both given.
- `JSON.stringify`, `JSON.parse`, base64 decoding and `toISOString` are parameters of the model, not modelled.
- A JSON payload that is not an object (a number, an array) is folded into `decode` returning `None` or a payload with fields absent.
- Prisma: transactions are modelled as all-or-nothing week writes. Left out are isolation, the 30-second transaction timeout, nested-create mechanics, connection failures that are not a rejected write, and id generation (ids are counters).
- Idempotence under redelivery is not claimed: the cloner does not implement it, and a second run appends the weeks again.
- Express routing, `app.listen`, the process environment and the console logs of every module.
- File reads and writes and the command line of the two scripts. The converter works on the file's content as a string. `week1Data` in scripts/transform-week1.js is an input of the model rather than the fixed literal.
- `parseInt` is modelled on a sign and leading decimal digits. A "0x" prefix and other radix detection are not modelled.
- `toLowerCase` and the regex `i` flag are modelled for ASCII only.
- Object keys that collide with `Object.prototype` members (such as "constructor") in the day map are not modelled.
- lib/csv/types.ts is not part of this model. Its row types are taken from their uses in lib/csv/import-to-db.ts.
- The import tables are nested records (program, then weeks, workouts, exercises, sets), not separate tables joined by foreign ids.
- Transaction rollback on a thrown import is not modelled.
- `findFirst` returns the first row in table order; Prisma gives no order without `orderBy`.
- The in-place `sort` calls are modelled on values (a stable sort of a sequence), not on an array in place.
- The exercise key in lib/csv/import-to-db.ts can merge two different exercises (`ProgramStructure.NameKeyCollides`). This is modelled as written.
- The copy-status poller and stuck-job cleanup are not part of this model.
- `getStorageInfo` in hooks/useWorkoutStorage.ts is a debugging read built on `Blob` sizing and is not modelled.
- `WorkoutStorage.WorkoutDraft.Save` reads the clock once for both `timestamp` and `lastModified`, where the source calls `Date.now()` twice.
- The order in which `localStorage.key(i)` lists keys is browser-defined. It is modelled as a fixed sequence. The `typeof window === 'undefined'` guards are left out.
- The unmount flag in the load effect is not modelled: `loadData` has no `await`, so it runs to the end before any cleanup can clear the flag.
- `WorkoutHistory.HistoryList.Mount` runs the history request to completion inside the effect. Renders that happen while the request is in flight, and the `alert` on failure, are not modelled.
- The JSX rendering of the history list (skeleton, badges, date formatting, "set"/"sets") and of every other component is out of scope.
- `SyncTracking.SyncTracker` takes `lastSync` as a millisecond number instead of a `Date`. The `online`/`offline` listeners are the `SetOnline` method.
- Floating-point weights are `real` values that are copied, never computed with.
- `WorkoutStorage.Parsed` holds the timestamp after JavaScript's `Number` coercion as an integer. The coercion itself (null, booleans, numeric strings) and fractional timestamps are left to the `parse` parameter.
- SyncTracking.Truncate: lengths and the 50-character cut count Unicode scalar values. JavaScript's `length` and `substring` count UTF-16 code units, so text outside the Basic Multilingual Plane is cut at a different place, and possibly inside a surrogate pair.
