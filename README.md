# Progress-report backend: a verified model of its data layer

The system turns per-subject spreadsheet exports (marks and attendance) and a
student-roster spreadsheet into progress reports, one per student plus a consolidated
one. This project models the layer between the spreadsheet reader and the Word writer:

- **Header normalisation and the synonym table** (`Headers`, `Config`, `Synonyms`).
  A header is lower-cased and stripped of whitespace, `_`, `.` and `-`. It is then
  mapped to the first canonical field whose variation normalises alike. The ten
  canonical fields and their variations are the static tables of `config.py`.
  `synonym_literals.dfy` evaluates every variation once, one module per canonical key.
- **Ingestion** (`Ingest`). `process_subject_files` works through the uploaded files in
  order. For each file it renames columns, checks the three required columns, classifies
  the table as lab or theory, and fills absent mark columns with 0. It collects the roll
  numbers and stops at the first failing file. `process_backlog_file` lower-cases and
  strips the roster headers.
- **Reconciliation and the report's arithmetic** (`Reconcile`, `Report`).
  `get_student_complete_data` joins the subject tables and the roster on
  `str(roll).strip()`. The report values are computed as a `ReportData` record: the rows
  of display strings, the accumulators, the maximum marks, the attendance and marks
  percentages, the Poor/Satisfactory status, and the backlog headers and cells. The
  docx calls are not modelled.
- **The in-memory stores and the routes over them** (`Uploads`, `Preview`,
  `PreviewEdit`, `PreviewBacklog`, `Reports`).
  - `Uploads.UploadStore` and `Reports.ReportStore` are classes whose methods update
    their fields the way the routes overwrite the module-level dicts.
  - The edit routes rewrite table cells. They are modelled on the stored tables, with
    one method per route that changes the store.
  - HTTP errors are an `HttpError` value inside a `Result`.
- **The legacy generator** (`Legacy`): the root-level `report_generator.py`, kept apart
  so that its differences from the current generator are stated as lemmas:
  - rolls are compared with raw `==`;
  - identity comes from the subject row;
  - DT is scaled by 20/30;
  - the backlog block is a fixed three-semester table of dashes.

  The root-level `utils.py` is the same algorithm as `backend/services/utils.py`, so
  `Headers` and `Ingest` model both; some rows below cite the older copy.

Modelling of Python values:
- A spreadsheet cell is `Cells.Cell`: `Int`, `Float` (a real), `Text`, `Bool` or
  `Missing` (pandas' NaN).
- `str()` is `ToStr`, and the join key `str(x).strip()` is `Key`.
- `==` between cells is `PyEq`, which includes `7 == 7.0` and `True == 1`.
- `int()` and `float()` on text are `ToInt` and `ToFloat`; each returns `None` where
  Python raises.
- `round()` rounds half to even.
- A Python dict is a sequence of entries in insertion order (`Dicts`). Assigning to an
  existing key keeps its position.
- A DataFrame is `Tables.Table`: a column list plus rows of equal width.

Behaviours of the code that are easy to overlook, modelled as written:
- The per-student backlog block is built whenever the Detailed template and
  `include_backlog` are chosen, with or without a roster. Without a roster every cell
  is `-`.
- The roster upload does not require a roll-number column. Only the routes that need
  one fail without it.
- The roster is matched untrimmed in two places:
  - the consolidated document, `backend/services/report_generator.py:1090`;
  - the backlog edit, `backend/routes/preview.py:212`.

  Everywhere else the roster is matched on trimmed text.
- `update_student_data` also writes the student name into the subject table.
- The semester columns are sorted in the backlog view but not in the upload answer.

## Model

| member | source | states |
|---|---|---|
| Cells.Lower | backend/services/utils.py:15 | lower-casing keeps the length and maps each character by itself |
| Cells.TrimLeft | backend/services/report_generator.py:146-149 | the result is a suffix of the input; it starts with a non-space; everything dropped is whitespace |
| Cells.TrimRight | backend/services/report_generator.py:146-149 | the result is a prefix of the input; it ends with a non-space; everything dropped is whitespace |
| Cells.ReplaceChar | backend/routes/reports.py:102 | `replace(' ', '_')`: same length, each space becomes `_`, every other character is kept |
| Cells.NatStr | backend/services/report_generator.py:371 | `str(n)` of a natural is a non-empty string of digits |
| Cells.FloatStr | backend/services/report_generator.py:373-374 | `str()` of a float has no surrounding whitespace; it contains a `.` and no `e` for zero and magnitudes in [1e-4, 1e16), and an `e` (exponent form) otherwise |
| Cells.IndexOfChar | backend/services/utils.py:46 | the first position of the character, or the length when it is absent |
| Cells.ToNumber | backend/services/report_generator.py:318-319 | a cell takes part in `+=` exactly when it is an int, float or bool, and its value is what `float()` gives |
| Cells.Add | backend/services/report_generator.py:318-319 | Python addition: the value is the sum; the result is an int exactly when both operands are ints |
| Cells.Round | backend/services/report_generator.py:378 | `round()`: within 0.5 of the input, and even on a tie |
| Cells.TrimIdempotent | backend/services/report_generator.py:146-149 | stripping twice is stripping once |
| Cells.KeyIgnoresPadding | backend/services/report_generator.py:146-149 | a roll typed with surrounding spaces has the same join key as the stripped roll |
| Cells.KeyOfKey | backend/routes/preview.py:152-153 | rewriting a roll column to its stripped strings does not change any join key |
| Cells.DigitsNatOfNatStr | backend/services/report_generator.py:371 | the digits of `str(n)` read back as n |
| Cells.IntStrTrimmed | backend/services/report_generator.py:148-149 | `str(i)` of an integer has nothing to strip |
| Cells.IntKeyMatchesText | backend/services/report_generator.py:148-149 | an int roll and a text roll whose stripped form is its decimal text join |
| Cells.IntStrRoundTrip | backend/routes/preview.py:115-120 | `int(str(i)) == i` for every integer, negative ones included |
| Cells.IntKeyHasNoMark | backend/services/report_generator.py:148-149 | the key of an int roll has neither a `.` nor an `e` |
| Cells.FloatKeyHasMark | backend/services/report_generator.py:148-149 | the key of a float roll contains a `.` in the positional range and an `e` outside it |
| Cells.IntAndFloatKeysDiffer | backend/services/report_generator.py:148-149 | an int roll never joins a float roll, even 7 with 7.0 |
| Cells.WordIsNotAnInt | backend/routes/preview.py:115-120 | a word such as `AB` is truthy and `int()` rejects it, so `int(v or 0)` raises |
| Tables.GetOr | backend/services/report_generator.py:160-168 | `row.get(c, default)`: the row's cell under c when the column exists, else the default |
| Tables.Column | backend/services/utils.py:84 | `df[c].tolist()`: one cell per row, the cell under c |
| Tables.Fill | backend/services/utils.py:72 | `df[c] = v`: c exists afterwards, holds v on every row, and no other cell changes |
| Tables.Matching | backend/routes/preview.py:153 | the selected row indices are exactly the rows whose cell satisfies the test |
| Tables.Assign | backend/routes/preview.py:157 | `df.loc[idx, c] = v`: v on the selected rows; other rows keep their old value or get NaN in a new column; other columns unchanged |
| Tables.Select | backend/routes/preview.py:48 | `df[cols]`: the listed columns in that order, with each row's cells |
| Tables.Records | backend/services/utils.py:109-111 | one record per row, keyed by every column, with NaN shown as the empty string |
| Dicts.Find | backend/routes/reports.py:154-157 | a lookup succeeds exactly when some entry has the key, and returns that entry's value |
| Dicts.KeysOf | backend/routes/reports.py:196 | `list(d.keys())` in insertion order |
| Dicts.Put | backend/routes/reports.py:105 | assignment adds one entry only for a new key |
| Dicts.PutFind | backend/routes/reports.py:105 | after `d[k] = v`, looking up k gives v and every other key is unchanged |
| Dicts.PutOrder | backend/routes/reports.py:105 | assignment keeps the key order and appends a new key at the end |
| Dicts.PutUnique | backend/routes/reports.py:24 | assignment keeps the keys distinct |
| Dicts.KeyCount | backend/routes/reports.py:147 | the length of a dict is the number of its distinct keys |
| Dicts.Gather | backend/services/report_generator.py:672-676 | a sequence of steps succeeds when every step does; otherwise it fails with the first step's error |
| Headers.NormalizeText | backend/services/utils.py:15 | the result is no longer than the input and holds only characters the normaliser keeps |
| Headers.NormalizeConcat | backend/services/utils.py:15 | normalisation works character by character: normalising a concatenation concatenates the normal forms |
| Headers.NormalizeFixed | backend/services/utils.py:11-16 | a string is its own normal form exactly when every character is one the normaliser keeps |
| Headers.NormalizeIdempotent | backend/services/utils.py:11-16 | normalising twice is normalising once |
| Headers.NormalizeSkips | backend/services/utils.py:15 | inserting a space, `_`, `.` or `-` anywhere does not change the normal form |
| Headers.NormalizeIgnoresCase | utils.py:11-16 | a header and its lower-case form normalise alike |
| Headers.Lookup | backend/services/utils.py:22-24 | the first canonical key, in table order, with a variation that normalises to the header's normal form; none when no key has one |
| Headers.MapColumnName | backend/services/utils.py:19-25 | a header maps to itself or to a canonical key |
| Synonyms.NormalizedDisjoint | config.py:13-57 | after normalisation, the variation lists of distinct canonical keys share no string |
| Synonyms.TenCanonicalKeys | config.py:13-57 | the canonical keys are exactly the ten fields, in table order |
| Synonyms.LookupFindsOwner | backend/services/utils.py:22-24 | a normal form listed under key i is found as key i, whatever the keys before it |
| Synonyms.KeyAmongVariations | config.py:13-57 | every canonical key is among its own variations |
| Synonyms.CanonicalMapsToItself | backend/services/utils.py:19-25 | a canonical name maps to itself |
| Synonyms.MapIdempotent | utils.py:18-24 | mapping a mapped header changes nothing |
| Synonyms.EqualNormalizationMapsAlike | backend/services/utils.py:19-25 | two headers that normalise alike map to the same key, or both stay unchanged |
| Synonyms.NonTextHeaderUnchanged | backend/services/utils.py:13-14 | a header that is not a string (a number read as a header) keeps its name |
| Synonyms.VariationMapsToKey | backend/services/utils.py:21-24 | a header that normalises like a variation of key i maps to key i |
| Synonyms.IdIsRollNo | config.py:15 | the header `id` maps to roll_no |
| Synonyms.TotalIsTotalMarks | config.py:40 | the header `total` maps to total_marks |
| Synonyms.PresentIsAttendancePresent | config.py:50 | the header `present` maps to attendance_present |
| Synonyms.MarksIsLabMarks | config.py:55 | the header `marks` maps to lab_marks |
| Synonyms.RollNoSpellings | backend/services/utils.py:15 | `Roll No`, `roll_no` and ` ROLL-NO ` all normalise to `rollno` |
| Synonyms.PaddedUpperRollNo | config.py:14-18 | ` ROLL-NO ` maps to roll_no |
| Synonyms.BacklogKeys | config.py:60-82 | the roster mapping's keys are roll_no, student_name, father_name, then `sem 1` to `sem 8` |
| Synonyms.SemesterKeysListed | config.py:74-81 | each semester key is the first of its own variations |
| Synonyms.BacklogRollNoSameAsSubject | config.py:61-65 | the roster roll variations are the subject ones plus `htno`, and both lists accept the same normal forms |
| Ingest.SubjectName | backend/services/utils.py:46 | `filename.split('.')[0]`: the longest prefix without a `.`, ending at the first `.` or at the end |
| Ingest.RenameColumn | backend/services/utils.py:50-53 | a column is renamed only to a canonical key; otherwise it keeps its name |
| Ingest.Rename | backend/services/utils.py:49-54 | renaming changes each column name on its own and leaves the rows alone |
| Ingest.MissingFrom | backend/services/utils.py:57 | the missing list holds exactly the required names that are not columns |
| Ingest.AddIfAbsent | backend/services/utils.py:71-72 | an absent column is appended filled with 0; existing columns and cells are kept |
| Ingest.AddAll | backend/services/utils.py:70-74 | afterwards every listed column exists; the absent ones hold 0; all earlier cells are kept |
| Ingest.PrepareFile | backend/services/utils.py:45-82 | a prepared file is stored under its filename stem |
| Ingest.ProcessSubjectFiles | backend/services/utils.py:28-88 | the loop's result: the first failing file's error, or the stem-keyed tables and the roll numbers without repetition |
| Ingest.ProcessEach | backend/services/utils.py:45-86 | the loop, with invariants, computes the fold of the per-file steps |
| Ingest.Store | backend/services/utils.py:82-84 | storing one table is one step of the fold, and the roll list stays duplicate-free |
| Ingest.AddUnseen | utils.py:72-74 | `all_students.update(...)`: the new rolls are appended without repeats, and the set becomes the union |
| Ingest.StopsAtFailure | backend/services/utils.py:58-59 | a file that fails after successful ones makes the whole call fail with its error |
| Ingest.ErrorSticks | backend/services/utils.py:87-88 | once the fold has failed, later files do not change the error |
| Ingest.RenameIsMap | backend/services/utils.py:51-53 | renaming a column gives the same name as `map_column_name` |
| Ingest.PrepareTableAccepts | backend/services/utils.py:56-59 | a table is accepted exactly when its renamed columns are distinct and include the three required ones; otherwise the error names the missing columns |
| Ingest.PrepareTableShape | backend/services/utils.py:68-80 | the renamed columns and their cells are kept (mark strings such as `AB` included), except an existing is_lab; absent mark columns hold 0; is_lab holds the lab flag on every row |
| Ingest.LabIffNoTheoryMarks | utils.py:51-70 | is_lab is true on a row exactly when dt, st and at marks were all absent |
| Ingest.FoldOk | backend/services/utils.py:45-86 | the batch succeeds exactly when every file does |
| Ingest.FirstFailure | backend/services/utils.py:56-59 | the batch's error is the error of the first failing file |
| Ingest.LastStemWins | backend/services/utils.py:82 | the table stored under a name is the last one prepared under that stem |
| Ingest.FoldUnique | backend/services/utils.py:39-82 | subject names are distinct |
| Ingest.FoldStudents | backend/services/utils.py:83-86 | a roll is in all_students exactly when some successfully processed table holds it |
| Ingest.PrepareTableIngested | backend/services/utils.py:43-80 | a prepared table has roll_no, both attendance columns, every mark column and is_lab |
| Ingest.FoldIngested | backend/services/utils.py:45-84 | every stored table is a prepared one, and a non-empty successful batch stores something |
| Ingest.ProcessAllIngested | backend/services/utils.py:28-88 | after a successful upload the names are distinct, every table is a prepared one, and a non-empty file list stores a subject |
| Ingest.FirstNonText | backend/services/utils.py:103 | the first header that is not a string, the one on which `.lower()` raises |
| Ingest.LowerStrip | backend/services/utils.py:103 | each header becomes `name.lower().strip()` |
| Ingest.ProcessBacklogFile | backend/services/utils.py:91-106 | the roster is accepted exactly when it was read, every header is a string, and the headers stay distinct once lower-cased and stripped; the rows are untouched; a read error is returned as its message |
| Reconcile.FirstColumn | backend/services/report_generator.py:122-126 | the first accepted spelling that is a column; none before it is |
| Reconcile.FirstRow | backend/services/report_generator.py:130-134 | `.iloc[0]` of a filter: the first row that matches; no earlier row does |
| Reconcile.RosterRow | backend/services/report_generator.py:120-131 | the roster row found is a real row, and there is none when no roll column is accepted |
| Reconcile.FirstAccepted | backend/services/report_generator.py:132-144 | "" exactly when no accepted column holds a usable value; otherwise the stripped value of one that does (which one: FirstAcceptedIsFirst) |
| Reconcile.FirstAcceptedIsFirst | backend/services/report_generator.py:135-144 | the `break` loops take the first candidate in list order whose value is not NaN and not blank |
| Reconcile.FirstAcceptedFrom | backend/services/report_generator.py:135-144 | the search from any candidate on stops at the first accepted one after it |
| Reconcile.Identity | backend/services/report_generator.py:117-144 | without a roster, the name and father are both empty |
| Reconcile.RowFor | backend/services/report_generator.py:146-150 | the row found in a subject table has the roll's join key and no earlier row does; None when no row does |
| Reconcile.Hit | backend/services/report_generator.py:147-170 | a table contributes an entry exactly when it holds the roll, built from its first matching row |
| Reconcile.Entries | backend/services/report_generator.py:147-170 | per table in order: an entry exactly when the table holds the roll |
| Reconcile.CollectSubjects | backend/services/report_generator.py:146-170 | the loop gives the personal info from the first table holding the roll and the entries of all such tables |
| Reconcile.Collect | backend/services/report_generator.py:147-170 | one pass of the loop extends the entries and keeps the first roll |
| Reconcile.GetStudentCompleteData | backend/services/report_generator.py:108-171 | the method computes the complete data of the specification function |
| Reconcile.EntriesFromMatchingTables | backend/services/report_generator.py:147-170 | an entry appears exactly when some table holding the roll gives it |
| Reconcile.OneEntryPerTable | backend/services/report_generator.py:147-150 | there is one entry per table that holds the roll |
| Reconcile.InfoIffEntries | backend/services/report_generator.py:151-158 | personal info is set exactly when there is at least one entry |
| Reconcile.IdentityFromRosterOnly | backend/services/report_generator.py:117-158 | name and father do not depend on the subject tables |
| Reconcile.InfoFromIdentity | backend/services/report_generator.py:154-158 | the name is the roster name or "Student {roll}", and the father is the roster's |
| Reconcile.NoRosterFallback | backend/services/report_generator.py:154-158 | without a roster the name is "Student {roll}" and the father is "" |
| Reconcile.JoinIgnoresPadding | backend/services/report_generator.py:146-148 | a padded and a stripped roll find the same subjects |
| Reconcile.JoinAcrossTypes | backend/services/report_generator.py:148 | an int roll finds the subjects of the text roll spelled as its digits |
| Uploads.FirstNonExcel | backend/routes/upload.py:32-37 | the first file without an Excel extension; all earlier ones have one |
| Uploads.UploadView | backend/routes/upload.py:53-59 | a subject's preview has its columns, its row count and its lab flag |
| Uploads.SemesterColumns | backend/routes/upload.py:93 | exactly the columns starting with `sem` |
| Uploads.UploadStore.constructor | backend/routes/upload.py:14-18 | the store starts with no subjects, no students and no roster |
| Uploads.UploadStore.Status | backend/routes/upload.py:105-117 | has_subjects iff subjects are stored, has_backlog iff a roster is stored, ready equals has_subjects, and the count is the number of students |
| Uploads.UploadStore.UploadSubjectFiles | backend/routes/upload.py:21-68 | errors: an empty list, then the first bad extension, then a processing error with a message, each leaving the store unchanged; a processing error with an empty message clears the tables and roll numbers and answers 500; success replaces subjects and students, keeps the roster, and answers with names, count and previews |
| Uploads.UploadStore.UploadStudentInfo | backend/routes/upload.py:71-102 | a bad extension or a processing error with a message leaves the store unchanged; one with an empty message drops the roster and answers 500; success replaces only the roster and answers with its count, columns and sem columns |
| Uploads.UploadStore.Clear | backend/routes/upload.py:120-127 | all three fields are reset and the status shows nothing |
| Uploads.OneBadNameRejects | backend/routes/upload.py:32-37 | one non-Excel name anywhere makes the upload fail at or before it |
| Uploads.UpperCaseExtensionRefused | backend/routes/upload.py:33 | the extension check is case-sensitive: `marks.XLSX` is refused |
| Preview.Sort | backend/routes/preview.py:182 | `sorted()`: ordered and a permutation of the input |
| Preview.DisplayColumns | backend/routes/preview.py:40-45 | the shown columns are the table's, minus is_lab, minus the four theory mark columns for a lab table |
| Preview.SubjectsData | backend/routes/preview.py:29-59 | not-found exactly when no subject is stored; otherwise one entry per subject with its name, displayed columns, the records of those columns, its row count and its is_lab flag, plus the counts and the stored roll numbers |
| Preview.TheoryTablesShowMarks | backend/routes/preview.py:41-45 | is_lab is never shown; theory tables show their marks columns and lab tables do not |
| Preview.LineValues | backend/routes/preview.py:115-120 | each of the six numbers is `int(row.get(c, 0) or 0)` |
| Preview.LineOf | backend/routes/preview.py:113-122 | a subject line exists exactly when all six conversions succeed, otherwise a server error; it carries the values in order |
| Preview.Line | backend/routes/preview.py:108-122 | no line exactly when the table does not hold the roll; a failure is a server error |
| Preview.Lines | backend/routes/preview.py:106-122 | one outcome per subject, in order |
| Preview.Answer | backend/routes/preview.py:124-132 | not-found when no subject holds the roll; the name is the roster's or "Student {roll_no}" |
| Preview.StudentData | backend/routes/preview.py:62-68 | not-found when no subject data is stored |
| Preview.CollectLines | backend/routes/preview.py:104-122 | the loop computes the subject lines of the specification function |
| Preview.GetStudentData | backend/routes/preview.py:62-132 | the route computes the answer of the specification function |
| Preview.FoundErrors | backend/routes/preview.py:115-120 | the only error of the lines is the server error |
| Preview.FoundAgreesWithEntries | backend/routes/preview.py:108-111 | the preview finds some subject exactly when the report's reconciliation does |
| Preview.PreviewAgreesWithReport | backend/routes/preview.py:124-125 | unless a conversion fails, the preview succeeds exactly when the report's reconciliation finds a subject |
| Preview.AbMarkFailsLine | backend/routes/preview.py:115-120 | an `AB` mark makes the student's line fail |
| Preview.AbMarkFailsPreview | backend/routes/preview.py:115-121 | an `AB` mark in any subject turns the whole preview into a server error |
| PreviewEdit.TrimRolls | backend/routes/preview.py:152 | the roll column becomes its stripped strings; every other cell is kept |
| PreviewEdit.WriteFieldsCell | backend/routes/preview.py:158-163 | a selected row gets the supplied value, or the first match's old value when it is not supplied; other cells are kept |
| PreviewEdit.EditRows | backend/routes/preview.py:153-163 | the edit keeps the rows; it adds a student_name column only when a row was found |
| PreviewEdit.WriteName | backend/routes/preview.py:156-157 | writing the name adds at most the student_name column and changes no other cell |
| PreviewEdit.EditTable | backend/routes/preview.py:150-163 | the edited table is still an ingested table with the same rows |
| PreviewEdit.TrimmedRowIsRowFor | backend/routes/preview.py:152-153 | after the roll rewrite, the row found by text equality is the row found by join key |
| PreviewEdit.EditFindsWherePreviewFinds | backend/routes/preview.py:153-155 | a table is updated exactly when the preview finds the roll in it |
| PreviewEdit.EditWritesFields | backend/routes/preview.py:158-163 | on every matching row, each of the six fields gets the supplied value or the first match's old value; no other cell outside the roll and name columns changes |
| PreviewEdit.EditWritesName | backend/routes/preview.py:156-157 | a non-empty name is written on every matching row |
| PreviewEdit.EditWithoutStudent | backend/routes/preview.py:155 | for an unknown roll the table is only trimmed |
| PreviewEdit.EditTrimsRolls | backend/routes/preview.py:152 | after the edit every roll cell holds its stripped string |
| PreviewEdit.EditKeepsRow | backend/routes/preview.py:152-153 | the edit keeps the table ingested and keeps the row found for the roll |
| PreviewEdit.PreviewReadsEdit | backend/routes/preview.py:158-163 | an integer written by the edit is what the preview then reads |
| PreviewEdit.ApplyUpdates | backend/routes/preview.py:147-164 | the updates keep every table ingested and keep the row found for the roll in each |
| PreviewEdit.ApplyUpdatePreserves | backend/routes/preview.py:148-164 | one update changes only the named subject, and reports it exactly when that table holds the roll |
| PreviewEdit.ApplyUpdatesNames | backend/routes/preview.py:164 | the updated names are the hits, in request order |
| PreviewEdit.UnknownRollUpdatesNothing | backend/routes/preview.py:153-170 | an unknown roll is not an error and updates no subject |
| PreviewEdit.ApplyUpdatesUntouched | backend/routes/preview.py:148-149 | a subject that no update names is unchanged |
| PreviewEdit.UpdateThenRead | backend/routes/preview.py:147-164 | after updating a field of a stored student, the preview reads the new value and the subject is reported |
| PreviewEdit.UpdateSubject | backend/routes/preview.py:148-164 | one pass of the loop stores the update's result and leaves the students and roster alone |
| PreviewEdit.UpdateStudentData | backend/routes/preview.py:135-170 | not-found without subjects; otherwise the subjects become the updates' result and the answer lists the updated names |
| PreviewEdit.UpdateSubjects | backend/routes/preview.py:147-164 | the loop over the updates computes their result and keeps the store consistent |
| PreviewBacklog.BacklogData | backend/routes/preview.py:173-189 | not-found without a roster; otherwise the records, columns and row count |
| PreviewBacklog.BacklogSemestersSorted | backend/routes/preview.py:182 | the semester columns are sorted and are exactly the columns starting with `sem` |
| PreviewBacklog.FindColumn | backend/routes/preview.py:203-207 | the loop finds the first accepted roll spelling that is a column |
| PreviewBacklog.WriteFirstCell | backend/routes/preview.py:218-229 | a non-empty name or father is written on the matched rows into the first existing accepted column only |
| PreviewBacklog.BacklogCell | backend/routes/preview.py:235 | an empty backlog text is stored as None, any other text as itself |
| PreviewBacklog.WriteBacklogsCell | backend/routes/preview.py:232-235 | on matched rows each existing column named in the backlog update gets the value of its last entry there; other cells are kept |
| PreviewBacklog.LastValue | backend/routes/preview.py:233-235 | a key's value is taken from its last entry |
| PreviewBacklog.EditRoster | backend/routes/preview.py:203-235 | bad-request without a roll column; not-found exactly when no row equals the roll; otherwise same columns and rows |
| PreviewBacklog.Selected | backend/routes/preview.py:212 | the selected rows are exactly those whose roll cell `==` the path roll |
| PreviewBacklog.UpdateBacklogData | backend/routes/preview.py:192-240 | not-found without a roster; an edit error leaves the roster; success stores the edited roster; subjects and students are never touched |
| PreviewBacklog.EditRosterCell | backend/routes/preview.py:212-235 | a cell changes exactly when its row matches and the update writes its column |
| PreviewBacklog.NumericRollsNotEditable | backend/routes/preview.py:212 | a roster of numeric rolls can never be edited through the text path roll |
| PreviewBacklog.NumericRollIsRead | backend/routes/preview.py:88-89 | yet the read path finds such a numeric roll |
| Report.SortKey | backend/services/report_generator.py:312 | the sort key is 0 for theory and 1 for a lab |
| Report.TheoryFirst | backend/services/report_generator.py:312 | after the sort, no lab precedes a theory subject |
| Report.TheoryFirstPermutes | backend/services/report_generator.py:312 | the sort is a permutation |
| Report.TheoryFirstStable | backend/services/report_generator.py:312 | the sort is stable: theory subjects and labs each keep their order |
| Report.Component | backend/services/report_generator.py:347-361 | an `AB` component counts 0; any other contributes its `float()` value, or fails where `float()` raises |
| Report.LabOf | backend/services/report_generator.py:328-340 | a lab mark is absent, `AB`, scored or unparsed, as the branches decide for every value but NaN (a blank cell, see "## Left out"); a score is its `float()` |
| Report.LabText | backend/services/report_generator.py:394-406 | the lab cell shows `-`, `AB`, the rounded score or the raw text |
| Report.TheoryText | backend/services/report_generator.py:363-378 | the total cell shows the rounded sum of the three contributions |
| Report.RowOf | backend/services/report_generator.py:370-379 | the row number is idx + 1, and the row holds lab marks exactly for a lab |
| Report.AddAttendance | backend/services/report_generator.py:316-319 | the attendance sums grow by the subject's values; the step fails exactly when a value is not a number |
| Report.AddMarks | backend/services/report_generator.py:321-368 | +40 to the maximum for theory; one more marked lab for a scored or `AB` lab mark |
| Report.Accumulate | backend/services/report_generator.py:306-416 | the accumulation fails exactly when the attendance sums fail |
| Report.AttendanceFails | backend/services/report_generator.py:318 | one failing subject fails the whole accumulation |
| Report.AttendanceSucceeds | backend/services/report_generator.py:316-319 | attendance sums succeed exactly when every subject's attendance is numeric |
| Report.MarksCounts | backend/services/report_generator.py:328-368 | the maximum is 40 per theory subject, and the marked labs are counted |
| Report.Rows | backend/services/report_generator.py:313-379 | one row per subject, in order |
| Report.Aggregate | backend/services/report_generator.py:306-416 | the loop over the subjects computes the accumulators and the rows |
| Report.AttendancePercent | backend/services/report_generator.py:434 | 0 when nothing was conducted, else present × 100 / conducted |
| Report.MarksPercent | backend/services/report_generator.py:448-452 | shown as `-` exactly when the maximum is 0, else sum × 100 / maximum |
| Report.TotalCell | backend/services/report_generator.py:428-431 | empty when the maximum is 0, else the rounded sum |
| Report.PoorIff | backend/services/report_generator.py:506 | "Poor" exactly when nothing was conducted or present × 100 < 75 × conducted |
| Report.NoMaximumIff | backend/services/report_generator.py:415-416 | the marks percentage is `-` exactly when there is no theory subject and no marked lab |
| Report.Roman | backend/services/report_generator.py:571 | semester n is written with the n-th of the eight numerals I to VIII |
| Report.NumeralLetters | backend/services/report_generator.py:564-566 | the eight numerals are distinct, non-empty, and made of I and V only |
| Report.MatchAt | backend/services/report_generator.py:566 | a whole-word numeral starts here exactly when the word is one of the eight |
| Report.SearchFrom | backend/services/report_generator.py:566-568 | a match found is a semester from 1 to 8 |
| Report.SemesterNumber | backend/services/report_generator.py:562-568 | the semester is always between 1 and 8 |
| Report.DefaultSemester | backend/services/report_generator.py:565 | a label with no I or V gives semester 4 |
| Report.SemesterRoundTrip | backend/services/report_generator.py:566-568 | a label holding numeral n as a whole word, with no numeral letter before it, gives n |
| Report.BacklogHeaders | backend/services/report_generator.py:570-574 | the prior semesters' "I Sem." headers in order, then the Remarks header |
| Report.SemCell | backend/services/report_generator.py:612-626 | `-` when none of the four spellings is a column |
| Report.BacklogRow | backend/services/report_generator.py:599-609 | a matched roster row is a row of the roster |
| Report.BacklogCells | backend/services/report_generator.py:612-628 | prior + 1 cells, Remarks `-`; all `-` without a match; otherwise each semester's cell |
| Report.BacklogOf | backend/services/report_generator.py:562-628 | the header row and the cell row have prior + 1 entries |
| Report.ReportOf | backend/services/report_generator.py:173-646 | fails without personal info; with personal info and no subjects it succeeds with the header alone; with subjects it succeeds exactly when the attendance sums succeed; the table is present exactly when there are subjects, the status note exactly when there are subjects and the template is Detailed, the backlog block exactly when include_backlog is also set |
| Report.CreateReport | backend/services/report_generator.py:306-506 | the method computes the report of the specification function |
| Report.StudentReport | backend/services/report_generator.py:648-660 | nothing exactly when no subject holds the roll; the name is "{name}_Comprehensive_Report_docx" |
| Report.Page | backend/services/report_generator.py:672-676 | a page is blank exactly when no subject holds the roll |
| Report.CreateConsolidated | backend/services/report_generator.py:662-1129 | the loop gathers the pages and fails at the first page that raises |
| Report.MakePage | backend/services/report_generator.py:675-676 | one pass of the loop builds that roll's page |
| Report.BlankPages | backend/services/report_generator.py:676 | in a built document, page i is blank exactly when roll i holds no subject |
| Report.RawMatchMissesTextRoll | backend/services/report_generator.py:1090 | the consolidated document misses a text roster roll `7` for roll 7, which the per-student report finds |
| Report.TrimmedMatchMissesFloatRoll | backend/services/report_generator.py:607 | the trimmed match misses a float roster roll such as 7.0 for roll 7 |
| Report.RawMatchFindsFloatRoll | backend/services/report_generator.py:1090 | the raw match finds it, because 7 == 7.0 |
| Report.ParseFailureZeroesAll | backend/services/report_generator.py:354-361 | one unparseable component zeroes all three, so the total shows 0 |
| Report.AbCountsZero | backend/services/report_generator.py:348-367 | an `AB` component displays `AB` and contributes 0 |
| Report.ZeroLabMarkIsNoMark | backend/services/report_generator.py:328-329 | a non-string lab mark equal to 0 shows `-` and adds nothing |
| Report.AbsentLabCounts | backend/services/report_generator.py:339-340 | an `ab` lab mark shows `AB` and counts a marked lab with nothing added |
| Reports.FileName | backend/routes/reports.py:101-102 | a report's file name starts with `str(roll)` |
| Reports.Targets | backend/routes/reports.py:50 | the requested students when some are given, else all uploaded students |
| Reports.Individual | backend/routes/reports.py:72-113 | a report is made only for a roll some subject holds, under its file name |
| Reports.GenerateOne | backend/routes/reports.py:72-113 | the loop body gives the outcome of the specification function for that roll |
| Reports.GenerateIndividuals | backend/routes/reports.py:70-113 | the loop stores each report made and links it under its roll, as the batch function does |
| Reports.Generation | backend/routes/reports.py:41-148 | a refused request leaves the stored documents unchanged; no subjects, and then no target students, are refused with their messages |
| Reports.ReportStore.constructor | backend/routes/reports.py:24 | the document store starts empty |
| Reports.ReportStore.Generate | backend/routes/reports.py:41-148 | the route's documents and answer are those of the specification function |
| Reports.ReportStore.Download | backend/routes/reports.py:151-157 | succeeds exactly for a stored name and returns its document; otherwise not-found |
| Reports.ReportStore.Zip | backend/routes/reports.py:168-178 | not-found exactly when nothing is stored; otherwise the archive holds the stored documents |
| Reports.ReportStore.List | backend/routes/reports.py:192-198 | the stored names in order, and their count |
| Reports.ReportStore.Clear | backend/routes/reports.py:201-205 | the store is emptied: the list is empty and the zip is refused |
| Reports.ReportStore.PreviewDocument | backend/routes/reports.py:208-226 | bad-request without subjects; otherwise the loop finds the first stored name starting with the roll |
| Reports.FirstPrefixed | backend/routes/reports.py:219-223 | the first name, in insertion order, that starts with the prefix; none when no name does |
| Reports.PreviewOf | backend/routes/reports.py:219-226 | not-found when no name starts with the roll; otherwise a stored document whose name does |
| Reports.IndividualsUnique | backend/routes/reports.py:105-110 | document names and linked rolls stay distinct |
| Reports.LinkedRolls | backend/routes/reports.py:107-110 | a roll is linked exactly when the loop made a report for it |
| Reports.StoredNames | backend/routes/reports.py:105 | a name is stored exactly when it was stored before or the loop made a report under it |
| Reports.LinksDownloadable | backend/routes/reports.py:105-110 | every linked file name is stored |
| Reports.LinksIgnoreFiles | backend/routes/reports.py:70 | the links do not depend on documents from earlier calls |
| Reports.TotalCountsStudents | backend/routes/reports.py:144-147 | the total is the number of distinct rolls with a report |
| Reports.GeneratedDownloadable | backend/routes/reports.py:105-138 | after the consolidated document is added, every link and the consolidated name can be downloaded |
| Reports.GenerationSound | backend/routes/reports.py:41-148 | names stay distinct; every reported file and the consolidated one are stored; the total counts the distinct rolls |
| Reports.PreviewCrossesStudents | backend/routes/reports.py:221 | the prefix lookup can return another student's report, e.g. roll 1 finds the report of roll 12 |
| Reports.PreviewFindsOwnReport | backend/routes/reports.py:219-226 | a student whose report is stored always gets some preview |
| Legacy.RawRow | report_generator.py:39 | rolls are compared with raw `==`: the first row equal to the roll, and none when no row is |
| Legacy.PersonOf | report_generator.py:42-47 | identity is read from the subject row and fails exactly when student_name or father_name is missing |
| Legacy.Absorb | report_generator.py:38-57 | a table without the roll changes nothing; the step fails exactly when it would take identity from a table that lacks it |
| Legacy.Collect | report_generator.py:32-58 | info is set exactly when some subject is; at most one entry per table |
| Legacy.GetStudentCompleteData | report_generator.py:32-58 | the loop computes the specification function |
| Legacy.AbsorbTable | report_generator.py:39-57 | the loop body computes one step |
| Legacy.CollectFails | report_generator.py:45-46 | once identity fails, the error stands |
| Legacy.FirstHit | report_generator.py:38-40 | the first table holding the roll under raw equality |
| Legacy.CollectEmptyIff | report_generator.py:38-58 | the data is empty exactly when no table holds the roll |
| Legacy.CollectFailsIff | report_generator.py:42-47 | the lookup fails exactly when the first table holding the roll lacks the identity columns |
| Legacy.RowOf | report_generator.py:120-134 | each row is numbered and titled with its subject |
| Legacy.RowsNumbered | report_generator.py:125-127 | the rows are numbered from 1 in subject order |
| Legacy.Tabulate | report_generator.py:110-124 | the loop computes the sums and rows, and fails exactly when some subject holds a non-number |
| Legacy.AttendanceSums | report_generator.py:116-119 | the attendance totals are the column sums |
| Legacy.MarksSumWeighsDt | report_generator.py:120-124 | the marks total is DT × 20/30 + ST + AT, summed over all subjects |
| Legacy.PoorIff | report_generator.py:170 | "Poor" exactly when nothing was conducted or present × 100 < 75 × conducted |
| Legacy.ReportOf | report_generator.py:60-233 | fails without personal info, and otherwise succeeds exactly when every subject is numeric |
| Legacy.StudentReport | report_generator.py:235-247 | the report is named "{name}_Comprehensive_Report_docx" |
| Legacy.NoReportIff | report_generator.py:237-239 | nothing is returned exactly when no table holds the roll |
| Legacy.ScalesDt | report_generator.py:120-123 | the legacy row total is lower than the current one by exactly DT / 3 |
| Legacy.RawMatchMissesTextRoll | report_generator.py:39 | the legacy lookup misses a text roll `7` for roll 7, which the current join finds |
| Legacy.FixedBacklogIsSemesterFour | report_generator.py:196-210 | the fixed legacy backlog block equals the current one for semester IV without a roster |

## Left out

- The docx layout is not modelled: header, logo, fonts, margins, cell merges, widths, page breaks, signature lines and `doc.save`. A document is the `ReportData` (or page list) it would display.
- `f"{x:.2f}"` formatting is not modelled. Percentages are exact reals, not binary floats.
- Cells.FloatStr: the digits of a non-integral float, and of an exponent-form mantissa, are a bounded decimal expansion of the real value. Shortest round-trip printing of binary floats is not modelled. Only the shape is stated: no padding, a `.` in the positional range, an `e` outside it.
- `float()` and `int()` on text accept a sign, digits and one `.`. Exponents, `inf`, `nan`, underscores and Unicode digits are not modelled.
- NaN is modelled as `Missing`. Where Python would propagate NaN through arithmetic, the model treats the value as not a number. In practice:
  - A blank DT, ST or AT cell makes the model's three contributions 0, so the row total is 0. Python's `float()` yields NaN there, and `round(nan)` raises ValueError (backend/services/report_generator.py:375-378), so that student's report fails.
  - A blank attendance cell is an error in the model. Python adds NaN to the sums, prints `nan` in the row and shows 0.00% because `nan > 0` is false.
  - A blank lab mark is an unparsed mark in the model: the lab is not counted, and the TOTAL and percentage stay numbers. In Python `nan != 0`, so the lab counts toward the maximum (backend/services/report_generator.py:328-337, :414). `float(nan)` makes the marks sum NaN, so the TOTAL cell stays blank (:424-431) and the percentage shows `nan%` (:447-448). For one theory subject at 10/10/10 plus a lab with a blank mark, the model shows 30 and 75%, where Python shows a blank TOTAL and `nan%`.
- `lower()` is ASCII-only. `strip()` uses Python's whitespace set.
- pandas dtype upcasting and the `astype(object)` step are not modelled. Cells keep their parsed types.
- Ingest.ProcessSubjectFiles: the roll numbers are returned in first-seen order. This is one of the orders `list(set)` may produce, because Python fixes none.
- Ingest.ProcessSubjectFiles: two headers that map to the same canonical name are an ingestion error in the model. pandas would keep both columns.
- Ingest.ProcessBacklogFile: headers that collide after lower-casing and stripping are an error in the model. pandas would keep both.
- Preview.StudentData: its own contract states only the no-subjects case. The other cases are stated by PreviewAgreesWithReport and AbMarkFailsPreview, and GetStudentData ties the route to it.
- Report.SemCell: its contract states only the absent-column case. BacklogCells states how each cell is filled.
- Dict keys compare like cells: `7` and `7.0` are distinct keys in the model, where Python treats them as one. The same holds for `True` and `1`.
- Ingest.AddUnseen: `all_students` is a Python set, which merges equal numbers of different types (`7` with `7.0`, `True` with `1`). The model keeps structurally distinct cells apart, so it may hold both where Python holds one.
- Ingest.Store: the same set semantics apply when a table's roll numbers are added to the running collection.
- Ingest.ProcessSubjectFiles: for the same reason the number of roll numbers returned can exceed Python's when one roll is typed as an int in one file and as a float in another.
- Uploads.UploadStore.UploadSubjectFiles: after a processing error with an empty message, Python stores `None` as the roll-number list, so get_upload_status then fails with a 500 until the store is cleared. The model stores an empty list, so the status reports no students instead.
- Report.MatchAt: a word character is an ASCII letter, digit or `_`. Python's `\b` on a `str` pattern also counts non-ASCII letters and digits, so in a label such as `VIé` Python finds no numeral where the model finds `VI`. Report.SearchFrom and Report.SemesterNumber inherit this.
- The `backlogs` dict of a roster update is an ordered list of pairs, so a later pair overrides an earlier one.
- JSON bodies and pydantic validation are not modelled. Request and response fields are Dafny values over cells.
- The clock is a parameter: the report date and the consolidated file's time stamp.
- Spreadsheet parsing (`pd.read_excel`) is not modelled. An upload arrives as an already parsed sheet or as a read error.
- DOCX-to-HTML conversion (mammoth) and zip compression are not modelled. The preview returns the stored document, and the zip is the list of stored documents.
- The thread pool in `generate_comprehensive_reports` (backend/services/report_generator.py:1131-1155) is not modelled, because no route calls it. Its tasks only read the shared tables, so it equals a sequential map of `generate_student_reports`, which is modelled (Report.StudentReport).
- The legacy consolidated report and the legacy batch generator (report_generator.py:249-452) are not modelled. Their per-student logic is the legacy per-student report, which is modelled.
- Department name, academic year, report date and attendance dates are not modelled. They are displayed text that no computation reads.
- The Streamlit app (app.py), the React frontend, the FastAPI wiring (backend/main.py) and the fixture data (sample_data.py) are outside the modelled core.
