/** The older generator at the repository root (report_generator.py): the roll is matched
    with raw `==`, the student's identity comes from the first matching subject row, DT is
    scaled by 20/30, there is no lab or "AB" handling, and the backlog table always has
    three semesters of "-". Its ingestion (utils.py) is the same code as the current one
    and is modelled by Headers and Ingest. */
module Legacy {
  import opened Cells
  import opened Tables
  import opened Dicts
  import opened Ingest
  import opened Reconcile
  import Report

  /** The values get_student_complete_data copies for one subject, with their 0 defaults:
      no lab mark and no is_lab flag. */
  datatype SubjectMarks = SubjectMarks(
    subject: string, dt: Cell, st: Cell, at: Cell, total: Cell, conducted: Cell, present: Cell)

  /** personal_info: the roll, student_name and father_name cells of a subject row. */
  datatype Person = Person(roll: Cell, name: Cell, father: Cell)

  /** student_complete_data; info is None while personal_info is the empty dict. */
  datatype Record = Record(info: Option<Person>, subjects: seq<SubjectMarks>)

  // ---------------------------------------------------------------------------
  // get_student_complete_data

  /** `subject_df['roll_no'] == student_roll`, cell by cell. */
  function RawMatch(roll: Cell): Cell -> bool {
    c => PyEq(c, roll)
  }

  /** The first row of a subject table whose roll equals the given one. */
  function RawRow(t: Table, roll: Cell): (r: Option<nat>)
    requires Valid(t) && Text("roll_no") in t.columns
    ensures r.Some? ==> r.value < |t.rows| && PyEq(t.rows[r.value][IndexOf(t.columns, Text("roll_no"))], roll)
    ensures r.Some? ==> forall j :: 0 <= j < r.value ==> !PyEq(t.rows[j][IndexOf(t.columns, Text("roll_no"))], roll)
    ensures r.None? ==> forall j :: 0 <= j < |t.rows| ==> !PyEq(t.rows[j][IndexOf(t.columns, Text("roll_no"))], roll)
  {
    FirstRow(t, IndexOf(t.columns, Text("roll_no")), RawMatch(roll))
  }

  /** The subject entry of row r. */
  function MarksOf(subject: string, t: Table, r: nat): SubjectMarks
    requires Valid(t) && r < |t.rows|
  {
    SubjectMarks(subject,
      GetOr(t, r, Text("dt_marks"), Int(0)), GetOr(t, r, Text("st_marks"), Int(0)),
      GetOr(t, r, Text("at_marks"), Int(0)), GetOr(t, r, Text("total_marks"), Int(0)),
      GetOr(t, r, Text("attendance_conducted"), Int(0)), GetOr(t, r, Text("attendance_present"), Int(0)))
  }

  /** Whether a subject table has the columns personal_info is read from. */
  predicate HasIdentity(t: Table) {
    Text("student_name") in t.columns && Text("father_name") in t.columns
  }

  /** personal_info from row r: `student_info['student_name']` raises a KeyError when the
      column is absent, and so does father_name. */
  function PersonOf(t: Table, r: nat): (p: Result<Person, string>)
    requires Valid(t) && r < |t.rows| && Text("roll_no") in t.columns
    ensures p.Ok? <==> HasIdentity(t)
  {
    match (Get(t, r, Text("student_name")), Get(t, r, Text("father_name")))
    case (None, _) => Err("KeyError: 'student_name'")
    case (_, None) => Err("KeyError: 'father_name'")
    case (Some(n), Some(f)) => Ok(Person(t.rows[r][IndexOf(t.columns, Text("roll_no"))], n, f))
  }

  /** One subject table of the loop: a table holding the roll appends its entry, and the
      first such table also sets personal_info. */
  function Absorb(d: Record, name: string, t: Table, roll: Cell): (r: Result<Record, string>)
    requires Valid(t) && Text("roll_no") in t.columns
    requires d.info.Some? <==> d.subjects != []
    ensures r.Ok? ==> (r.value.info.Some? <==> r.value.subjects != [])
    ensures r.Ok? ==> |r.value.subjects| <= |d.subjects| + 1
    ensures RawRow(t, roll).None? ==> r == Ok(d)
    ensures r.Err? <==> RawRow(t, roll).Some? && d.info.None? && !HasIdentity(t)
  {
    match RawRow(t, roll)
    case None => Ok(d)
    case Some(i) =>
      var m := MarksOf(name, t, i);
      if d.info.Some? then Ok(Record(d.info, d.subjects + [m]))
      else match PersonOf(t, i)
        case Err(e) => Err(e)
        case Ok(p) => Ok(Record(Some(p), d.subjects + [m]))
  }

  /** The loop over the subject tables in store order. */
  function Collect(roll: Cell, subjects: seq<Subject>): (r: Result<Record, string>)
    requires HasRolls(subjects)
    ensures r.Ok? ==> (r.value.info.Some? <==> r.value.subjects != [])
    ensures r.Ok? ==> |r.value.subjects| <= |subjects|
    decreases |subjects|
  {
    if subjects == [] then Ok(Record(None, []))
    else
      var n := |subjects| - 1;
      var prev := Collect(roll, subjects[..n]);
      if prev.Err? then prev
      else Absorb(prev.value, subjects[n].key, subjects[n].val, roll)
  }

  /** get_student_complete_data (report_generator.py) */
  method GetStudentCompleteData(roll: Cell, subjects: seq<Subject>) returns (r: Result<Record, string>)
    requires HasRolls(subjects)
    ensures r == Collect(roll, subjects)
  {
    var info: Option<Person> := None;
    var entries: seq<SubjectMarks> := [];
    for n := 0 to |subjects|
      invariant Collect(roll, subjects[..n]) == Ok(Record(info, entries))
    {
      assert subjects[..n + 1][..n] == subjects[..n];
      var next := AbsorbTable(Record(info, entries), subjects[n].key, subjects[n].val, roll);
      if next.Err? {
        CollectFails(roll, subjects, n + 1);
        return next;
      }
      info, entries := next.value.info, next.value.subjects;
    }
    assert subjects[..|subjects|] == subjects;
    r := Ok(Record(info, entries));
  }

  /** The body of the loop for one table. */
  method AbsorbTable(d: Record, name: string, t: Table, roll: Cell) returns (r: Result<Record, string>)
    requires Valid(t) && Text("roll_no") in t.columns
    requires d.info.Some? <==> d.subjects != []
    ensures r == Absorb(d, name, t, roll)
  {
    var info, entries := d.info, d.subjects;
    var row := RawRow(t, roll);
    if row.Some? {
      var i := row.value;
      if info.None? {
        var p := PersonOf(t, i);
        if p.Err? {
          return Err(p.error);
        }
        info := Some(p.value);
      }
      entries := entries + [MarksOf(name, t, i)];
    }
    r := Ok(Record(info, entries));
  }

  /** Once the loop has raised, the call raises the same error. */
  lemma {:induction false} CollectFails(roll: Cell, subjects: seq<Subject>, n: nat)
    requires HasRolls(subjects) && n <= |subjects| && Collect(roll, subjects[..n]).Err?
    ensures Collect(roll, subjects) == Collect(roll, subjects[..n])
    decreases |subjects| - n
  {
    if n < |subjects| {
      assert subjects[..n + 1][..n] == subjects[..n];
      CollectFails(roll, subjects, n + 1);
    } else {
      assert subjects[..n] == subjects;
    }
  }

  /** The first table holding the roll. */
  function FirstHit(roll: Cell, subjects: seq<Subject>): (j: Option<nat>)
    requires HasRolls(subjects)
    ensures j.Some? ==> j.value < |subjects| && RawRow(subjects[j.value].val, roll).Some?
    ensures j.Some? ==> forall k :: 0 <= k < j.value ==> RawRow(subjects[k].val, roll).None?
    ensures j.None? ==> forall k :: 0 <= k < |subjects| ==> RawRow(subjects[k].val, roll).None?
    decreases |subjects|
  {
    if subjects == [] then None
    else
      var n := |subjects| - 1;
      var j := FirstHit(roll, subjects[..n]);
      assert forall k :: 0 <= k < n ==> subjects[..n][k] == subjects[k];
      if j.Some? then j
      else if RawRow(subjects[n].val, roll).Some? then Some(n)
      else None
  }

  /** No entry (and no personal_info) exactly when no table holds the roll under `==`. */
  lemma {:induction false} CollectEmptyIff(roll: Cell, subjects: seq<Subject>)
    requires HasRolls(subjects)
    ensures Collect(roll, subjects) == Ok(Record(None, [])) <==> FirstHit(roll, subjects).None?
    decreases |subjects|
  {
    if subjects != [] {
      var n := |subjects| - 1;
      CollectEmptyIff(roll, subjects[..n]);
    }
  }

  /** The call raises exactly when the first table holding the roll lacks student_name or
      father_name: tables ingested under the current rules need neither. */
  lemma {:induction false} CollectFailsIff(roll: Cell, subjects: seq<Subject>)
    requires HasRolls(subjects)
    ensures Collect(roll, subjects).Err? <==>
              FirstHit(roll, subjects).Some? && !HasIdentity(subjects[FirstHit(roll, subjects).value].val)
    decreases |subjects|
  {
    if subjects != [] {
      var n := |subjects| - 1;
      var pre := subjects[..n];
      CollectFailsIff(roll, pre);
      CollectEmptyIff(roll, pre);
      var j := FirstHit(roll, pre);
      if j.Some? {
        assert FirstHit(roll, subjects) == j;
        assert subjects[j.value] == pre[j.value];
      }
    }
  }

  // ---------------------------------------------------------------------------
  // The marks table of create_comprehensive_student_report

  /** The accumulators: attendance sums and the sum of row totals (a float once a row is
      added). */
  datatype Sums = Sums(conducted: Num, present: Num, marks: real)

  /** One displayed row: S.No., course, conducted, attended, DT, ST, AT, total. */
  datatype MarksRow = MarksRow(
    sno: string, course: string, conducted: string, present: string,
    dt: string, st: string, at: string, total: string)

  /** Every value a row adds or scales is a number; a string raises a TypeError. */
  predicate Numeric(m: SubjectMarks) {
    IsNumber(m.conducted) && IsNumber(m.present) && IsNumber(m.dt) && IsNumber(m.st) && IsNumber(m.at)
  }

  /** A cell `+` accepts: an int, a float or a bool. */
  predicate IsNumber(c: Cell) {
    c.Int? || c.Float? || c.Bool?
  }

  /** `subject['dt_marks'] * 20 / 30` */
  function ScaledDt(m: SubjectMarks): real
    requires Numeric(m)
  {
    NumValue(ToNumber(m.dt).value) * 20.0 / 30.0
  }

  /** `dt_marks + st_marks + at_marks` with DT scaled. */
  function RowTotal(m: SubjectMarks): real
    requires Numeric(m)
  {
    ScaledDt(m) + NumValue(ToNumber(m.st).value) + NumValue(ToNumber(m.at).value)
  }

  /** The row of the idx-th subject (counted from 0). */
  function RowOf(idx: nat, m: SubjectMarks): (r: MarksRow)
    requires Numeric(m)
    ensures r.sno == NatStr(idx + 1) && r.course == m.subject
  {
    MarksRow(NatStr(idx + 1), m.subject, ToStr(m.conducted), ToStr(m.present),
             IntStr(Round(ScaledDt(m))), ToStr(m.st), ToStr(m.at), IntStr(Round(RowTotal(m))))
  }

  /** No row raises. */
  predicate AllNumeric(ms: seq<SubjectMarks>) {
    forall k :: 0 <= k < |ms| ==> Numeric(ms[k])
  }

  /** The three accumulators after the rows of ms: `total_conducted += …`,
      `total_present += …`, `total_marks_sum += total`. */
  function SumsOf(ms: seq<SubjectMarks>): (s: Sums)
    requires AllNumeric(ms)
    decreases |ms|
  {
    if ms == [] then Sums(IntNum(0), IntNum(0), 0.0)
    else
      var n := |ms| - 1;
      var s := SumsOf(ms[..n]);
      Sums(Add(s.conducted, ToNumber(ms[n].conducted).value), Add(s.present, ToNumber(ms[n].present).value),
           s.marks + RowTotal(ms[n]))
  }

  /** The displayed rows, one per subject in order. */
  function RowsOf(ms: seq<SubjectMarks>): (rows: seq<MarksRow>)
    requires AllNumeric(ms)
    ensures |rows| == |ms|
    decreases |ms|
  {
    if ms == [] then [] else var n := |ms| - 1; RowsOf(ms[..n]) + [RowOf(n, ms[n])]
  }

  /** Row k shows S.No. k + 1 and the k-th subject's name. */
  predicate Numbered(rows: seq<MarksRow>, ms: seq<SubjectMarks>) {
    |rows| == |ms| && forall k :: 0 <= k < |ms| ==> rows[k].sno == NatStr(k + 1) && rows[k].course == ms[k].subject
  }

  /** The rows are numbered from 1 in subject order. */
  lemma {:induction false} RowsNumbered(ms: seq<SubjectMarks>)
    requires AllNumeric(ms)
    ensures Numbered(RowsOf(ms), ms)
    decreases |ms|
  {
    if ms != [] {
      var n := |ms| - 1;
      PrefixNumeric(ms, n);
      RowsNumbered(ms[..n]);
      var rows := RowsOf(ms);
      var front := RowsOf(ms[..n]);
      assert rows == front + [RowOf(n, ms[n])];
      forall k | 0 <= k < |ms| ensures rows[k].sno == NatStr(k + 1) && rows[k].course == ms[k].subject {
        if k < n {
          assert rows[k] == front[k] && ms[k] == ms[..n][k];
        } else {
          assert rows[k] == RowOf(n, ms[n]);
        }
      }
    }
  }

  /** The marks table: None where a row raises. */
  function Tabulated(ms: seq<SubjectMarks>): Option<(Sums, seq<MarksRow>)> {
    if AllNumeric(ms) then Some((SumsOf(ms), RowsOf(ms))) else None
  }

  /** The loop over the subjects, accumulating in place; it raises at the first subject
      holding a non-number. */
  method Tabulate(ms: seq<SubjectMarks>) returns (r: Option<(Sums, seq<MarksRow>)>)
    ensures r == Tabulated(ms)
    ensures r.None? <==> exists k :: 0 <= k < |ms| && !Numeric(ms[k])
  {
    var conducted := IntNum(0);
    var present := IntNum(0);
    var marks := 0.0;
    var rows: seq<MarksRow> := [];
    for idx := 0 to |ms|
      invariant AllNumeric(ms[..idx])
      invariant Sums(conducted, present, marks) == SumsOf(ms[..idx])
      invariant rows == RowsOf(ms[..idx])
    {
      var m := ms[idx];
      if !Numeric(m) {
        return None;
      }
      NumericPrefix(ms, idx);
      RowsStep(ms, idx);
      SumsStep(ms, idx);
      conducted := Add(conducted, ToNumber(m.conducted).value);
      present := Add(present, ToNumber(m.present).value);
      marks := marks + RowTotal(m);
      rows := rows + [RowOf(idx, m)];
    }
    assert ms[..|ms|] == ms;
    r := Some((Sums(conducted, present, marks), rows));
  }

  /** A numeric row extends a numeric prefix. */
  lemma NumericPrefix(ms: seq<SubjectMarks>, i: nat)
    requires i < |ms| && AllNumeric(ms[..i]) && Numeric(ms[i])
    ensures AllNumeric(ms[..i + 1])
  {
    var p := ms[..i + 1];
    forall k | 0 <= k < |p| ensures Numeric(p[k]) {
      if k < i {
        assert p[k] == ms[..i][k];
      }
    }
  }

  /** One more subject adds one row. */
  lemma RowsStep(ms: seq<SubjectMarks>, i: nat)
    requires i < |ms| && AllNumeric(ms[..i]) && Numeric(ms[i]) && AllNumeric(ms[..i + 1])
    ensures RowsOf(ms[..i + 1]) == RowsOf(ms[..i]) + [RowOf(i, ms[i])]
  {
    assert ms[..i + 1][..i] == ms[..i];
  }

  /** One more subject adds one term to each sum. */
  lemma SumsStep(ms: seq<SubjectMarks>, i: nat)
    requires i < |ms| && AllNumeric(ms[..i]) && Numeric(ms[i]) && AllNumeric(ms[..i + 1])
    ensures var s := SumsOf(ms[..i]);
            SumsOf(ms[..i + 1]) == Sums(Add(s.conducted, ToNumber(ms[i].conducted).value),
                                        Add(s.present, ToNumber(ms[i].present).value), s.marks + RowTotal(ms[i]))
  {
    assert ms[..i + 1][..i] == ms[..i];
  }

  /** The value of one numeric column of a subject: 0 conducted, 1 present, 2 DT, 3 ST,
      4 AT. */
  function ColumnValue(m: SubjectMarks, c: nat): real
    requires Numeric(m) && c < 5
  {
    var v := if c == 0 then m.conducted else if c == 1 then m.present
             else if c == 2 then m.dt else if c == 3 then m.st else m.at;
    NumValue(ToNumber(v).value)
  }

  /** The column summed over the subjects. */
  function ColumnSum(ms: seq<SubjectMarks>, c: nat): real
    requires AllNumeric(ms) && c < 5
    decreases |ms|
  {
    if ms == [] then 0.0 else ColumnSum(ms[..|ms| - 1], c) + ColumnValue(ms[|ms| - 1], c)
  }

  /** The attendance accumulators hold the column sums. */
  lemma {:induction false} AttendanceSums(ms: seq<SubjectMarks>)
    requires AllNumeric(ms)
    ensures NumValue(SumsOf(ms).conducted) == ColumnSum(ms, 0)
    ensures NumValue(SumsOf(ms).present) == ColumnSum(ms, 1)
    decreases |ms|
  {
    if ms != [] {
      var n := |ms| - 1;
      PrefixNumeric(ms, n);
      AttendanceSums(ms[..n]);
    }
  }

  /** total_marks_sum weighs the DT column by 20/30. */
  lemma {:induction false} MarksSumWeighsDt(ms: seq<SubjectMarks>)
    requires AllNumeric(ms)
    ensures SumsOf(ms).marks == ColumnSum(ms, 2) * 20.0 / 30.0 + ColumnSum(ms, 3) + ColumnSum(ms, 4)
    decreases |ms|
  {
    if ms != [] {
      var n := |ms| - 1;
      PrefixNumeric(ms, n);
      MarksSumWeighsDt(ms[..n]);
      var m := ms[n];
      var p := ms[..n];
      assert SumsOf(ms).marks == SumsOf(p).marks + RowTotal(m);
      assert RowTotal(m) == ColumnValue(m, 2) * 20.0 / 30.0 + ColumnValue(m, 3) + ColumnValue(m, 4);
      assert ColumnSum(ms, 2) == ColumnSum(p, 2) + ColumnValue(m, 2);
      assert ColumnSum(ms, 3) == ColumnSum(p, 3) + ColumnValue(m, 3);
      assert ColumnSum(ms, 4) == ColumnSum(p, 4) + ColumnValue(m, 4);
    }
  }

  /** A prefix of numeric subjects is numeric. */
  lemma PrefixNumeric(ms: seq<SubjectMarks>, n: nat)
    requires AllNumeric(ms) && n <= |ms|
    ensures AllNumeric(ms[..n])
  {
    forall k | 0 <= k < n ensures Numeric(ms[..n][k]) {
      assert ms[..n][k] == ms[k];
    }
  }

  /** The attendance percentage, by the same rule as the current generator. */
  function Attendance(s: Sums): real {
    Report.AttendancePercent(Report.Totals(s.conducted, s.present, IntNum(0), 0, 0))
  }

  /** "Poor" exactly when fewer than 75 of every 100 conducted classes were attended, or
      nothing was conducted. */
  lemma PoorIff(s: Sums)
    ensures Report.Status(Attendance(s)) == "Poor" <==>
              NumValue(s.conducted) <= 0.0 || NumValue(s.present) * 100.0 < 75.0 * NumValue(s.conducted)
  {
    Report.PoorIff(Report.Totals(s.conducted, s.present, IntNum(0), 0, 0));
  }

  // ---------------------------------------------------------------------------
  // The report

  /** The backlog table: always three semesters and the remarks column, every cell "-". */
  const FixedBacklog: Report.Backlog :=
    Report.Backlog(["I Sem.", "II Sem.", "III Sem.", "Remarks by Head of the Department"], ["-", "-", "-", "-"])

  /** The marks table with its TOTAL and Percentage rows. */
  datatype Tabulation = Tabulation(rows: seq<MarksRow>, sums: Sums, totalCell: string, attendance: real)

  /** What a legacy report displays; the status, notes and backlog belong to the Detailed
      template, the backlog to include_backlog as well, and all of them to a report with
      subjects. */
  datatype ProgressReport = ProgressReport(
    roll: string, name: string, father: string,
    table: Option<Tabulation>, status: Option<string>, backlog: Option<Report.Backlog>)

  /** create_comprehensive_student_report (report_generator.py): a KeyError without
      personal_info, a TypeError from a non-numeric value. */
  function ReportOf(d: Record, opts: Report.Options): (r: Result<ProgressReport, string>)
    ensures d.info.None? ==> r.Err?
    ensures d.info.Some? ==> (r.Ok? <==> AllNumeric(d.subjects))
    ensures r.Ok? && d.subjects == [] ==> r.value.table.None? && r.value.status.None? && r.value.backlog.None?
  {
    if d.info.None? then Err("KeyError: 'roll_no'")
    else
      var p := d.info.value;
      if d.subjects == [] then Ok(ProgressReport(ToStr(p.roll), ToStr(p.name), ToStr(p.father), None, None, None))
      else match Tabulated(d.subjects)
        case None => Err("TypeError: unsupported operand type(s)")
        case Some(tab) =>
          var att := Attendance(tab.0);
          Ok(ProgressReport(ToStr(p.roll), ToStr(p.name), ToStr(p.father),
            Some(Tabulation(tab.1, tab.0, IntStr(Round(tab.0.marks)), att)),
            if opts.detailed then Some(Report.Status(att)) else None,
            if opts.detailed && opts.includeBacklog then Some(FixedBacklog) else None))
  }

  /** generate_student_reports (report_generator.py): an empty dict (None) when no subject
      matched, otherwise the report under "<name>_Comprehensive_Report_docx". */
  function StudentReport(roll: Cell, subjects: seq<Subject>, opts: Report.Options): (r: Result<Option<(string, ProgressReport)>, string>)
    requires HasRolls(subjects)
    ensures r.Ok? && r.value.Some? ==> r.value.value.0 == r.value.value.1.name + "_Comprehensive_Report_docx"
  {
    match Collect(roll, subjects)
    case Err(e) => Err(e)
    case Ok(d) =>
      if d.subjects == [] then Ok(None)
      else match ReportOf(d, opts)
        case Err(e) => Err(e)
        case Ok(rep) => Ok(Some((rep.name + "_Comprehensive_Report_docx", rep)))
  }

  /** The empty dict comes back exactly when no subject table holds the roll under `==`. */
  lemma NoReportIff(roll: Cell, subjects: seq<Subject>, opts: Report.Options)
    requires HasRolls(subjects)
    ensures StudentReport(roll, subjects, opts) == Ok(None) <==> FirstHit(roll, subjects).None?
  {
    CollectEmptyIff(roll, subjects);
  }

  // ---------------------------------------------------------------------------
  // Where the two generators part

  /** The current generator's row total minus the legacy one is a third of DT: the legacy
      rows scale DT by 20/30. */
  lemma ScalesDt(e: SubjectEntry)
    requires (e.dt.Int? || e.dt.Float?) && (e.st.Int? || e.st.Float?) && (e.at.Int? || e.at.Float?)
    ensures var m := SubjectMarks(e.subject, e.dt, e.st, e.at, e.total, Int(0), Int(0));
            NumValue(Report.TheoryTotal(e)) - RowTotal(m) == NumValue(ToNumber(e.dt).value) / 3.0
  {
    var d := NumberComponent(e.dt);
    var s := NumberComponent(e.st);
    var a := NumberComponent(e.at);
    assert Report.TheoryValues(e) == (FloatNum(d), FloatNum(s), FloatNum(a));
  }

  /** A number is never "AB": its component is its own value. */
  lemma NumberComponent(v: Cell) returns (x: real)
    requires v.Int? || v.Float?
    ensures x == NumValue(ToNumber(v).value)
    ensures Report.Component(v) == Some(FloatNum(x))
  {
    x := NumValue(ToNumber(v).value);
  }

  /** A subject table whose roll column holds text (the string "7" for the roll 7): the
      legacy `==` never matches an integer roll, while the current generator finds the
      first row through str().strip(). */
  lemma RawMatchMissesTextRoll(t: Table, n: int)
    requires Valid(t) && Text("roll_no") in t.columns && |t.rows| > 0
    requires forall j :: 0 <= j < |t.rows| ==> t.rows[j][IndexOf(t.columns, Text("roll_no"))].Text?
    requires t.rows[0][IndexOf(t.columns, Text("roll_no"))] == Text(IntStr(n))
    ensures RawRow(t, Int(n)).None?
    ensures RowFor(t, Key(Int(n))) == Some(0)
  {
    var k := IndexOf(t.columns, Text("roll_no"));
    assert SameKey(Key(Int(n)))(t.rows[0][k]);
    assert FirstRowFrom(t, k, SameKey(Key(Int(n))), 0) == Some(0);
  }

  /** The legacy backlog table is the current one for a fourth-semester label with no
      roster: three prior semesters, every cell "-". */
  lemma FixedBacklogIsSemesterFour()
    ensures FixedBacklog.headers == Report.BacklogHeaders(Report.PriorSemesters(4))
    ensures FixedBacklog.cells == Report.BacklogCells(None, None, 3)
  {
    var h := Report.BacklogHeaders(3);
    assert h[0] == "I Sem." && h[1] == "II Sem." && h[2] == "III Sem.";
    assert h == FixedBacklog.headers;
  }
}
