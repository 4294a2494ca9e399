/** process_subject_files, process_backlog_file and dataframe_to_dict: turning uploaded
    spreadsheets into subject tables, the set of roll numbers and the roster. */
module Ingest {
  import opened Cells
  import opened Config
  import opened Headers
  import opened Tables
  import opened Dicts

  /** What pd.read_excel gives for one file: a table, or the text of the exception it raised. */
  datatype Sheet = Parsed(table: Table) | Unreadable(message: string)

  datatype Upload = Upload(filename: string, sheet: Sheet)

  datatype IngestError =
    | MissingColumns(subject: string, missing: seq<string>)
    | DuplicateColumns(subject: string)
    | Failed(message: string)

  /** One subject table, keyed by the file name's stem. */
  type Subject = Entry<string, Table>

  const MinimalRequired: seq<string> := ["roll_no", "attendance_conducted", "attendance_present"]

  predicate WellFormed(files: seq<Upload>) {
    forall j :: 0 <= j < |files| ==> files[j].sheet.Parsed? ==> Valid(files[j].sheet.table)
  }

  // ---------------------------------------------------------------------------
  // Messages

  function JoinComma(xs: seq<string>): string {
    if xs == [] then "" else if |xs| == 1 then xs[0] else xs[0] + ", " + JoinComma(xs[1..])
  }

  /** The text returned as the third element of the result tuple. */
  function Message(e: IngestError): string {
    match e
    case MissingColumns(subject, missing) =>
      "Missing required columns in " + subject + ": " + JoinComma(missing)
    case DuplicateColumns(subject) => "Duplicate columns in " + subject
    case Failed(message) => message
  }

  // ---------------------------------------------------------------------------
  // One file

  /** filename.split('.')[0] */
  function SubjectName(filename: string): (name: string)
    ensures '.' !in name
    ensures |name| <= |filename| && name == filename[..|name|]
    ensures |name| == |filename| || filename[|name|] == '.'
  {
    filename[..IndexOfChar(filename, '.')]
  }

  /** A header is renamed only when map_column_name gives one of the canonical keys. */
  function RenameColumn(c: Cell): (r: Cell)
    ensures r == c || (r == MapColumnName(c) && r.Text? && r.s in KeysOf(ColumnMappings))
  {
    var m := MapColumnName(c);
    if m.Text? && m.s in KeysOf(ColumnMappings) then m else c
  }

  function Rename(t: Table): (u: Table)
    ensures |u.columns| == |t.columns| && u.rows == t.rows
    ensures forall k :: 0 <= k < |t.columns| ==> u.columns[k] == RenameColumn(t.columns[k])
  {
    Table(seq(|t.columns|, k requires 0 <= k < |t.columns| => RenameColumn(t.columns[k])), t.rows)
  }

  /** The required names, in order, that are not columns. */
  function MissingFrom(required: seq<string>, columns: seq<Cell>): (missing: seq<string>)
    ensures forall x :: x in missing <==> x in required && Text(x) !in columns
    ensures |missing| <= |required|
  {
    if required == [] then []
    else (if Text(required[0]) in columns then [] else [required[0]]) + MissingFrom(required[1..], columns)
  }

  /** A lab table is one without any of the three theory mark columns. */
  predicate IsLabColumns(columns: seq<Cell>) {
    !(Text("dt_marks") in columns || Text("st_marks") in columns || Text("at_marks") in columns)
  }

  /** u keeps t's columns in place, with their cells, and may add columns after them. */
  predicate Extends(t: Table, u: Table) {
    && Valid(t) && Valid(u)
    && |u.rows| == |t.rows| && |t.columns| <= |u.columns| && u.columns[..|t.columns|] == t.columns
    && forall r, k :: 0 <= r < |t.rows| && 0 <= k < |t.columns| ==> u.rows[r][k] == t.rows[r][k]
  }

  /** Column c exists and holds 0 on every row. */
  predicate ZeroAt(u: Table, c: Cell) {
    Valid(u) && c in u.columns && forall r :: 0 <= r < |u.rows| ==> u.rows[r][IndexOf(u.columns, c)] == Int(0)
  }

  /** The column was absent before and has been added filled with 0. */
  predicate Defaulted(t: Table, u: Table, c: Cell) {
    c !in t.columns ==> ZeroAt(u, c)
  }

  lemma ExtendsTrans(t1: Table, t2: Table, t3: Table)
    requires Extends(t1, t2) && Extends(t2, t3)
    ensures Extends(t1, t3)
  {
    assert t3.columns[..|t1.columns|] == t3.columns[..|t2.columns|][..|t1.columns|];
  }

  /** Adding columns after c does not move c or change its cells. */
  lemma ExtendsKeepsZero(t: Table, u: Table, c: Cell)
    requires Extends(t, u) && ZeroAt(t, c)
    ensures ZeroAt(u, c)
  {
    var k := IndexOf(t.columns, c);
    assert u.columns[k] == c;
    IndexOfDistinct(u.columns, k);
  }

  /** `if c not in df.columns: df[c] = 0` */
  function AddIfAbsent(t: Table, c: Cell): (u: Table)
    requires Valid(t)
    ensures Extends(t, u) && c in u.columns
    ensures u.columns == if c in t.columns then t.columns else t.columns + [c]
    ensures Defaulted(t, u, c)
  {
    if c in t.columns then t
    else
      var u := Fill(t, c, Int(0));
      assert u.columns[..|t.columns|] == t.columns;
      u
  }

  /** The mark columns that ingestion guarantees, in the order it adds them. */
  const MarkColumns: seq<Cell> :=
    [Text("dt_marks"), Text("st_marks"), Text("at_marks"), Text("total_marks"), Text("lab_marks")]

  /** `for col in cs: if col not in df.columns: df[col] = 0` */
  function AddAll(t: Table, cs: seq<Cell>): (u: Table)
    requires Valid(t)
    ensures Extends(t, u)
    ensures forall c :: c in u.columns <==> c in t.columns || c in cs
    ensures forall c :: c in cs ==> Defaulted(t, u, c)
    decreases |cs|
  {
    if cs == [] then
      assert t.columns[..|t.columns|] == t.columns;
      t
    else
      var t1 := AddIfAbsent(t, cs[0]);
      var u := AddAll(t1, cs[1..]);
      ExtendsTrans(t, t1, u);
      if ZeroAt(t1, cs[0]) then
        ExtendsKeepsZero(t1, u, cs[0]);
        u
      else u
  }

  /** The per-file body of the loop: rename, validate, classify, fill, flag. */
  function PrepareTable(subject: string, t: Table): (r: Result<Table, IngestError>)
    requires Valid(t)
    ensures r.Ok? ==> Valid(r.value)
  {
    var renamed := Rename(t);
    if !Distinct(renamed.columns) then Err(DuplicateColumns(subject))
    else
      var missing := MissingFrom(MinimalRequired, renamed.columns);
      if missing != [] then Err(MissingColumns(subject, missing))
      else
        var isLab := IsLabColumns(renamed.columns);
        Ok(Fill(AddAll(renamed, MarkColumns), Text("is_lab"), Bool(isLab)))
  }

  function PrepareUpload(u: Upload): (r: Result<Table, IngestError>)
    requires u.sheet.Parsed? ==> Valid(u.sheet.table)
    ensures r.Ok? ==> Valid(r.value)
  {
    match u.sheet
    case Unreadable(message) => Err(Failed(message))
    case Parsed(t) => PrepareTable(SubjectName(u.filename), t)
  }

  // ---------------------------------------------------------------------------
  // The subject store

  // ---------------------------------------------------------------------------
  // The whole batch

  /** The values of the roll_no column, or nothing when the table has none. */
  function RollNumbers(t: Table): (rolls: set<Cell>)
    requires Valid(t)
  {
    if Text("roll_no") in t.columns then Elems(Column(t, Text("roll_no"))) else {}
  }

  /** The loop body for one file: its prepared table under the file name's stem. */
  function PrepareFile(u: Upload): (r: Result<Subject, IngestError>)
    requires u.sheet.Parsed? ==> Valid(u.sheet.table)
    ensures r.Ok? ==> r.value.key == SubjectName(u.filename) && Valid(r.value.val)
  {
    match PrepareUpload(u)
    case Err(e) => Err(e)
    case Ok(t) => Ok(Entry(SubjectName(u.filename), t))
  }

  predicate AllValid(ps: seq<Result<Subject, IngestError>>) {
    forall j :: 0 <= j < |ps| ==> ps[j].Ok? ==> Valid(ps[j].value.val)
  }

  /** The outcome of a per-file step for every upload, in upload order. */
  function Prepared(files: seq<Upload>, prepare: Upload --> Result<Subject, IngestError>): (ps: seq<Result<Subject, IngestError>>)
    requires forall j :: 0 <= j < |files| ==> prepare.requires(files[j])
    ensures |ps| == |files|
  {
    seq(|files|, j requires 0 <= j < |files| => prepare(files[j]))
  }

  /** One turn of the loop: store the prepared table and collect its roll numbers. */
  function Step(acc: Result<(seq<Subject>, set<Cell>), IngestError>, p: Result<Subject, IngestError>): (r: Result<(seq<Subject>, set<Cell>), IngestError>)
    requires p.Ok? ==> Valid(p.value.val)
  {
    match acc
    case Err(_) => acc
    case Ok(acc) =>
      match p
      case Err(e) => Err(e)
      case Ok(s) => Ok((Put(acc.0, s.key, s.val), acc.1 + RollNumbers(s.val)))
  }

  /** subjects_data and all_students after the first n files, or the first failure. */
  function Fold(ps: seq<Result<Subject, IngestError>>, n: nat): Result<(seq<Subject>, set<Cell>), IngestError>
    requires AllValid(ps) && n <= |ps|
  {
    if n == 0 then Ok(([], {})) else Step(Fold(ps, n - 1), ps[n - 1])
  }

  function ProcessAll(files: seq<Upload>): Result<(seq<Subject>, set<Cell>), IngestError>
    requires WellFormed(files)
  {
    PreparedValid(files);
    Fold(Prepared(files, PrepareFile), |files|)
  }

  lemma PreparedValid(files: seq<Upload>)
    requires WellFormed(files)
    ensures AllValid(Prepared(files, PrepareFile))
  {
    var ps := Prepared(files, PrepareFile);
    forall j | 0 <= j < |ps| && ps[j].Ok?
      ensures Valid(ps[j].value.val)
    {
      assert ps[j] == PrepareFile(files[j]);
    }
  }

  /** The same outcome, with the roll numbers listed once each instead of as a set. */
  predicate Agrees(r: Result<(seq<Subject>, seq<Cell>), IngestError>, v: Result<(seq<Subject>, set<Cell>), IngestError>) {
    match v
    case Err(e) => r == Err(e)
    case Ok(v) => r.Ok? && r.value.0 == v.0 && Distinct(r.value.1) && Elems(r.value.1) == v.1
  }

  /** process_subject_files. The roll numbers are returned without repetition, in the
      order first seen (the source's set fixes no order, so this is one of its orders). */
  method ProcessSubjectFiles(files: seq<Upload>) returns (r: Result<(seq<Subject>, seq<Cell>), IngestError>)
    requires WellFormed(files)
    ensures Agrees(r, ProcessAll(files))
  {
    PreparedValid(files);
    r := ProcessEach(files, PrepareFile);
  }

  /** The loop of process_subject_files, for the per-file step it is given. */
  method ProcessEach(files: seq<Upload>, prepare: Upload --> Result<Subject, IngestError>)
    returns (r: Result<(seq<Subject>, seq<Cell>), IngestError>)
    requires forall j :: 0 <= j < |files| ==> prepare.requires(files[j])
    requires AllValid(Prepared(files, prepare))
    ensures Agrees(r, Fold(Prepared(files, prepare), |files|))
  {
    ghost var ps := Prepared(files, prepare);
    var subjects: seq<Subject> := [];
    var students: seq<Cell> := [];
    assert Elems(students) == {};
    for i := 0 to |files|
      invariant Fold(ps, i) == Ok((subjects, Elems(students)))
      invariant Distinct(students)
    {
      var p := prepare(files[i]);
      assert p == ps[i];
      if p.Err? {
        StopsAtFailure(ps, i);
        return Err(p.error);
      }
      subjects, students := Store(subjects, students, p.value);
      FoldStep(ps, i);
    }
    r := Ok((subjects, students));
  }

  lemma FoldStep(ps: seq<Result<Subject, IngestError>>, i: nat)
    requires AllValid(ps) && i < |ps|
    ensures Fold(ps, i + 1) == Step(Fold(ps, i), ps[i])
  {
  }

  /** `subjects_data[subject] = df` and `all_students.update(df["roll_no"])`. */
  method Store(subjects: seq<Subject>, students: seq<Cell>, s: Subject) returns (subjects': seq<Subject>, students': seq<Cell>)
    requires Valid(s.val) && Distinct(students)
    ensures Step(Ok((subjects, Elems(students))), Ok(s)) == Ok((subjects', Elems(students')))
    ensures Distinct(students')
  {
    subjects' := Put(subjects, s.key, s.val);
    students' := students;
    if Text("roll_no") in s.val.columns {
      students' := AddUnseen(students, Column(s.val, Text("roll_no")));
      assert RollNumbers(s.val) == Elems(Column(s.val, Text("roll_no")));
    } else {
      assert Elems(students) + RollNumbers(s.val) == Elems(students);
    }
  }

  /** `all_students.update(col)` on a list kept free of repeats: new values are appended in order. */
  method AddUnseen(students: seq<Cell>, col: seq<Cell>) returns (out: seq<Cell>)
    requires Distinct(students)
    ensures Distinct(out)
    ensures |students| <= |out| && out[..|students|] == students
    ensures Elems(out) == Elems(students) + Elems(col)
  {
    out := students;
    var k := 0;
    while k < |col|
      invariant 0 <= k <= |col|
      invariant Distinct(out)
      invariant |students| <= |out| && out[..|students|] == students
      invariant Elems(out) == Elems(students) + Elems(col[..k])
    {
      assert col[..k + 1] == col[..k] + [col[k]];
      ElemsAppend(col[..k], col[k]);
      if col[k] !in out {
        ElemsAppend(out, col[k]);
        out := out + [col[k]];
      }
      k := k + 1;
    }
    assert col[..k] == col;
  }

  /** The elements of a sequence, as a set. */
  function Elems<T>(s: seq<T>): set<T> {
    set x | x in s
  }

  lemma ElemsAppend<T>(s: seq<T>, x: T)
    ensures Elems(s + [x]) == Elems(s) + {x}
  {
  }

  /** A failing file ends the batch with its own error, whatever follows it. */
  lemma StopsAtFailure(ps: seq<Result<Subject, IngestError>>, i: nat)
    requires AllValid(ps) && i < |ps|
    requires Fold(ps, i).Ok? && ps[i].Err?
    ensures Fold(ps, |ps|) == Err(ps[i].error)
  {
    ErrorSticks(ps, i + 1, |ps|, ps[i].error);
  }

  lemma {:induction false} ErrorSticks(ps: seq<Result<Subject, IngestError>>, n: nat, m: nat, e: IngestError)
    requires AllValid(ps) && n <= m <= |ps|
    requires Fold(ps, n) == Err(e)
    ensures Fold(ps, m) == Err(e)
    decreases m
  {
    if m > n {
      ErrorSticks(ps, n, m - 1, e);
    }
  }

  // ---------------------------------------------------------------------------
  // Properties of one file

  /** The keys() test in the renaming loop never rejects a mapped header: every header is
      renamed to exactly what map_column_name gives. */
  lemma RenameIsMap(c: Cell)
    ensures RenameColumn(c) == MapColumnName(c)
  {
    var m := MapColumnName(c);
    if m != c {
      var i :| 0 <= i < |ColumnMappings| && m == Text(ColumnMappings[i].key);
      assert KeysOf(ColumnMappings)[i] == m.s;
    }
  }

  /** A file is accepted iff its renamed headers are distinct and include the three
      required columns; a file lacking some reports exactly those, in order. */
  lemma PrepareTableAccepts(subject: string, t: Table)
    requires Valid(t)
    ensures PrepareTable(subject, t).Ok? <==>
              Distinct(Rename(t).columns) && forall x :: x in MinimalRequired ==> Text(x) in Rename(t).columns
    ensures Distinct(Rename(t).columns) && PrepareTable(subject, t).Err? ==>
              PrepareTable(subject, t) == Err(MissingColumns(subject, MissingFrom(MinimalRequired, Rename(t).columns)))
  {
    var missing := MissingFrom(MinimalRequired, Rename(t).columns);
    if missing != [] {
      assert missing[0] in missing;
    }
  }

  /** The two last steps of preparing a table: absent mark columns are added as 0, then
      is_lab is written on every row. */
  predicate Shaped(n: Table, u: Table, flag: bool) {
    && KeepsExcept(n, u, Text("is_lab"))
    && (forall c :: c in MarkColumns && c !in n.columns ==> ZeroAt(u, c))
    && Text("is_lab") in u.columns
    && (forall r :: 0 <= r < |u.rows| ==> u.rows[r][IndexOf(u.columns, Text("is_lab"))] == Bool(flag))
  }

  /** Like Extends, except that the cells of column c may change. */
  predicate KeepsExcept(t: Table, u: Table, c: Cell) {
    && Valid(t) && Valid(u)
    && |u.rows| == |t.rows| && |t.columns| <= |u.columns| && u.columns[..|t.columns|] == t.columns
    && forall r, k :: 0 <= r < |t.rows| && 0 <= k < |t.columns| && t.columns[k] != c ==> u.rows[r][k] == t.rows[r][k]
  }

  lemma FillKeeps(n: Table, w: Table, c: Cell, v: Cell)
    requires Extends(n, w)
    ensures KeepsExcept(n, Fill(w, c, v), c)
  {
    var u := Fill(w, c, v);
    assert u.columns[..|n.columns|] == w.columns[..|w.columns|][..|n.columns|];
    forall r, k | 0 <= r < |n.rows| && 0 <= k < |n.columns| && n.columns[k] != c
      ensures u.rows[r][k] == n.rows[r][k]
    {
      assert w.columns[k] != c;
    }
  }

  lemma FillKeepsZero(w: Table, c: Cell, v: Cell, d: Cell)
    requires ZeroAt(w, d) && d != c
    ensures ZeroAt(Fill(w, c, v), d)
  {
    var u := Fill(w, c, v);
    var k := IndexOf(w.columns, d);
    assert u.columns[k] == d;
    IndexOfDistinct(u.columns, k);
  }

  lemma FlagNotMark()
    ensures Text("is_lab") !in MarkColumns
  {
    assert |"is_lab"| == 6;
    assert forall k :: 0 <= k < |MarkColumns| ==> |MarkColumns[k].s| >= 8;
  }

  lemma FlagShape(n: Table, flag: bool)
    requires Valid(n)
    ensures Shaped(n, Fill(AddAll(n, MarkColumns), Text("is_lab"), Bool(flag)), flag)
  {
    var w := AddAll(n, MarkColumns);
    FillKeeps(n, w, Text("is_lab"), Bool(flag));
    FlagNotMark();
    forall c | c in MarkColumns && c !in n.columns
      ensures ZeroAt(Fill(w, Text("is_lab"), Bool(flag)), c)
    {
      assert Defaulted(n, w, c);
      FillKeepsZero(w, Text("is_lab"), Bool(flag), c);
    }
  }

  /** An accepted table keeps every column and cell it had (after renaming), except that
      is_lab is overwritten; absent mark columns are added as 0; is_lab is the same on
      every row and says that none of the three theory mark columns was present. */
  lemma PrepareTableShape(subject: string, t: Table)
    requires Valid(t) && PrepareTable(subject, t).Ok?
    ensures Shaped(Rename(t), PrepareTable(subject, t).value, IsLabColumns(Rename(t).columns))
  {
    FlagShape(Rename(t), IsLabColumns(Rename(t).columns));
  }

  /** The lab flag: a table with none of dt, st and at marks. */
  lemma LabIffNoTheoryMarks(subject: string, t: Table)
    requires Valid(t) && PrepareTable(subject, t).Ok?
    ensures var u := PrepareTable(subject, t).value;
      forall r :: 0 <= r < |u.rows| ==>
        (u.rows[r][IndexOf(u.columns, Text("is_lab"))] == Bool(true) <==>
          Text("dt_marks") !in Rename(t).columns && Text("st_marks") !in Rename(t).columns && Text("at_marks") !in Rename(t).columns)
  {
    PrepareTableShape(subject, t);
    var u := PrepareTable(subject, t).value;
    assert forall r :: 0 <= r < |u.rows| ==> u.rows[r][IndexOf(u.columns, Text("is_lab"))] == Bool(IsLabColumns(Rename(t).columns));
  }

  // ---------------------------------------------------------------------------
  // Properties of the batch

  /** All or nothing: the batch succeeds iff every file does. */
  lemma {:induction false} FoldOk(ps: seq<Result<Subject, IngestError>>, n: nat)
    requires AllValid(ps) && n <= |ps|
    ensures Fold(ps, n).Ok? <==> forall j :: 0 <= j < n ==> ps[j].Ok?
  {
    if n > 0 {
      FoldOk(ps, n - 1);
    }
  }

  /** A failing batch reports the error of its first failing file. */
  lemma FirstFailure(ps: seq<Result<Subject, IngestError>>, j: nat)
    requires AllValid(ps) && j < |ps| && ps[j].Err?
    requires forall i :: 0 <= i < j ==> ps[i].Ok?
    ensures Fold(ps, |ps|) == Err(ps[j].error)
  {
    FoldOk(ps, j);
    StopsAtFailure(ps, j);
  }

  /** The table of the last of the first n files whose stem is name. */
  function Latest(ps: seq<Result<Subject, IngestError>>, n: nat, name: string): Option<Table>
    requires n <= |ps|
  {
    if n == 0 then None
    else if ps[n - 1].Ok? && ps[n - 1].value.key == name then Some(ps[n - 1].value.val)
    else Latest(ps, n - 1, name)
  }

  /** A later file with the same stem replaces the earlier table. */
  lemma {:induction false} LastStemWins(ps: seq<Result<Subject, IngestError>>, n: nat, name: string)
    requires AllValid(ps) && n <= |ps| && Fold(ps, n).Ok?
    ensures Find(Fold(ps, n).value.0, name) == Latest(ps, n, name)
  {
    if n > 0 {
      FoldOk(ps, n);
      FoldOk(ps, n - 1);
      LastStemWins(ps, n - 1, name);
      var s := ps[n - 1].value;
      PutFind(Fold(ps, n - 1).value.0, s.key, s.val, name);
    }
  }

  /** Each stem is stored once. */
  lemma {:induction false} FoldUnique(ps: seq<Result<Subject, IngestError>>, n: nat)
    requires AllValid(ps) && n <= |ps| && Fold(ps, n).Ok?
    ensures UniqueKeys(Fold(ps, n).value.0)
  {
    if n > 0 {
      FoldOk(ps, n);
      FoldOk(ps, n - 1);
      FoldUnique(ps, n - 1);
      var s := ps[n - 1].value;
      PutUnique(Fold(ps, n - 1).value.0, s.key, s.val);
    }
  }

  /** The students are exactly the roll numbers of the tables processed. */
  lemma {:induction false} FoldStudents(ps: seq<Result<Subject, IngestError>>, n: nat, x: Cell)
    requires AllValid(ps) && n <= |ps| && Fold(ps, n).Ok?
    ensures x in Fold(ps, n).value.1 <==>
              exists j :: 0 <= j < n && ps[j].Ok? && x in RollNumbers(ps[j].value.val)
  {
    if n > 0 {
      FoldOk(ps, n);
      FoldOk(ps, n - 1);
      FoldStudents(ps, n - 1, x);
      var s := ps[n - 1].value;
      assert Fold(ps, n).value.1 == Fold(ps, n - 1).value.1 + RollNumbers(s.val);
      if x in RollNumbers(s.val) {
        assert ps[n - 1].Ok? && x in RollNumbers(ps[n - 1].value.val);
      } else if exists j :: 0 <= j < n && ps[j].Ok? && x in RollNumbers(ps[j].value.val) {
        var j :| 0 <= j < n && ps[j].Ok? && x in RollNumbers(ps[j].value.val);
        assert j < n - 1;
      }
    }
  }

  /** A table as ingestion leaves it: well formed, with the required columns, every mark
      column and the is_lab flag. */
  predicate Ingested(t: Table) {
    && Valid(t)
    && Text("roll_no") in t.columns
    && (forall x :: x in MinimalRequired ==> Text(x) in t.columns)
    && (forall c :: c in MarkColumns ==> c in t.columns)
    && Text("is_lab") in t.columns
  }

  /** The columns an ingested table is known to have, one by one. */
  lemma IngestedColumns(t: Table)
    requires Ingested(t)
    ensures Text("roll_no") in t.columns && Text("attendance_conducted") in t.columns
    ensures Text("attendance_present") in t.columns
    ensures forall k :: 0 <= k < |MarkColumns| ==> MarkColumns[k] in t.columns
  {
    assert MinimalRequired[0] in MinimalRequired && MinimalRequired[1] in MinimalRequired;
    assert MinimalRequired[2] in MinimalRequired;
  }

  lemma PrepareTableIngested(subject: string, t: Table)
    requires Valid(t) && PrepareTable(subject, t).Ok?
    ensures Ingested(PrepareTable(subject, t).value)
  {
    PrepareTableAccepts(subject, t);
    var renamed := Rename(t);
    assert PrepareTable(subject, t).value == Fill(AddAll(renamed, MarkColumns), Text("is_lab"), Bool(IsLabColumns(renamed.columns)));
    CompletedIngested(renamed);
  }

  /** A renamed table with the required columns, completed with the mark columns and the
      flag, is as ingestion leaves it. */
  lemma CompletedIngested(renamed: Table)
    requires Valid(renamed) && forall x :: x in MinimalRequired ==> Text(x) in renamed.columns
    ensures Ingested(Fill(AddAll(renamed, MarkColumns), Text("is_lab"), Bool(IsLabColumns(renamed.columns))))
  {
    var a := AddAll(renamed, MarkColumns);
    var v := Fill(a, Text("is_lab"), Bool(IsLabColumns(renamed.columns)));
    IngestedFrom(renamed, a, v);
  }

  /** A table holding every column of a renamed table with the required ones, plus the
      mark columns and the flag, is as ingestion leaves it. */
  lemma IngestedFrom(renamed: Table, a: Table, v: Table)
    requires Valid(v) && forall x :: x in MinimalRequired ==> Text(x) in renamed.columns
    requires forall c :: c in a.columns <==> c in renamed.columns || c in MarkColumns
    requires forall c :: c in a.columns ==> c in v.columns
    requires Text("is_lab") in v.columns
    ensures Ingested(v)
  {
    assert MinimalRequired[0] in MinimalRequired;
  }

  /** Every table of a successful batch is as ingestion leaves it. */
  lemma {:induction false} FoldIngested(ps: seq<Result<Subject, IngestError>>, n: nat)
    requires AllValid(ps) && n <= |ps| && Fold(ps, n).Ok?
    requires forall j :: 0 <= j < |ps| && ps[j].Ok? ==> Ingested(ps[j].value.val)
    ensures forall j :: 0 <= j < |Fold(ps, n).value.0| ==> Ingested(Fold(ps, n).value.0[j].val)
    ensures n > 0 ==> Fold(ps, n).value.0 != []
  {
    if n > 0 {
      FoldOk(ps, n);
      FoldOk(ps, n - 1);
      FoldIngested(ps, n - 1);
      var s := ps[n - 1].value;
      PutEntries(Fold(ps, n - 1).value.0, s.key, s.val);
    }
  }

  /** A successful upload of n files stores at least one table, each with a distinct name
      and the shape ingestion gives it. */
  lemma ProcessAllIngested(files: seq<Upload>)
    requires WellFormed(files) && ProcessAll(files).Ok?
    ensures UniqueKeys(ProcessAll(files).value.0)
    ensures forall j :: 0 <= j < |ProcessAll(files).value.0| ==> Ingested(ProcessAll(files).value.0[j].val)
    ensures files != [] ==> ProcessAll(files).value.0 != []
  {
    PreparedValid(files);
    var ps := Prepared(files, PrepareFile);
    forall j | 0 <= j < |ps| && ps[j].Ok?
      ensures Ingested(ps[j].value.val)
    {
      var u := files[j];
      assert ps[j] == PrepareFile(u);
      PrepareTableIngested(SubjectName(u.filename), u.sheet.table);
    }
    FoldIngested(ps, |files|);
    FoldUnique(ps, |files|);
  }

  // ---------------------------------------------------------------------------
  // The roster

  /** The Python type name in "'int' object has no attribute 'lower'". */
  function TypeName(c: Cell): string {
    match c
    case Int(_) => "int"
    case Float(_) => "float"
    case Text(_) => "str"
    case Bool(_) => "bool"
    case Missing => "float"
  }

  /** The first header that is not a string, if any. */
  function FirstNonText(columns: seq<Cell>): (k: nat)
    ensures k <= |columns|
    ensures k < |columns| ==> !columns[k].Text?
    ensures forall j :: 0 <= j < k ==> columns[j].Text?
  {
    if columns == [] then 0 else if !columns[0].Text? then 0 else 1 + FirstNonText(columns[1..])
  }

  /** `[col.lower().strip() for col in columns]`, for string headers. */
  function LowerStrip(columns: seq<Cell>): (r: seq<Cell>)
    requires forall k :: 0 <= k < |columns| ==> columns[k].Text?
    ensures |r| == |columns|
    ensures forall k :: 0 <= k < |columns| ==> r[k] == Text(Trim(Lower(columns[k].s)))
  {
    seq(|columns|, k requires 0 <= k < |columns| => Text(Trim(Lower(columns[k].s))))
  }

  /** process_backlog_file: the sheet with lower-cased, stripped headers, or the message. */
  function ProcessBacklogFile(sheet: Sheet): (r: Result<Table, string>)
    requires sheet.Parsed? ==> Valid(sheet.table)
    ensures r.Ok? <==> sheet.Parsed? && (forall k :: 0 <= k < |sheet.table.columns| ==> sheet.table.columns[k].Text?)
                       && Distinct(LowerStrip(sheet.table.columns))
    ensures r.Ok? ==> r.value == Table(LowerStrip(sheet.table.columns), sheet.table.rows) && Valid(r.value)
    ensures sheet.Unreadable? ==> r == Err(sheet.message)
  {
    match sheet
    case Unreadable(message) => Err(message)
    case Parsed(t) =>
      var k := FirstNonText(t.columns);
      if k < |t.columns| then Err("'" + TypeName(t.columns[k]) + "' object has no attribute 'lower'")
      else
        var columns := LowerStrip(t.columns);
        if Distinct(columns) then Ok(Table(columns, t.rows)) else Err("duplicate column names")
  }
}
