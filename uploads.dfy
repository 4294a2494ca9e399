/** The upload routes: the in-memory store of subject tables, roll numbers and roster that
    every other route reads, and the rules by which uploads replace its parts. */
module Uploads {
  import opened Cells
  import opened Tables
  import opened Dicts
  import opened Ingest

  /** An HTTPException the routes raise, or the 500 an uncaught exception becomes. */
  datatype HttpError = BadRequest(detail: string) | NotFound(detail: string) | ServerError(detail: string)

  /** `filename.endswith(('.xlsx', '.xls'))`: case-sensitive. */
  predicate IsExcel(filename: string) {
    EndsWith(filename, ".xlsx") || EndsWith(filename, ".xls")
  }

  /** The position of the first upload that is not an Excel file, or |files|. */
  function FirstNonExcel(files: seq<Upload>): (k: nat)
    ensures k <= |files|
    ensures k < |files| ==> !IsExcel(files[k].filename)
    ensures forall j :: 0 <= j < k ==> IsExcel(files[j].filename)
  {
    if files == [] then 0 else if !IsExcel(files[0].filename) then 0 else 1 + FirstNonExcel(files[1..])
  }

  function InvalidType(filename: string): string {
    "Invalid file type: " + filename + ". Only Excel files (.xlsx, .xls) are allowed."
  }

  /** `bool(df['is_lab'].iloc[0])` when there is such a column and a first row, else False. */
  predicate IsLabTable(t: Table)
    requires Valid(t)
  {
    Text("is_lab") in t.columns && |t.rows| > 0 && Truthy(t.rows[0][IndexOf(t.columns, Text("is_lab"))])
  }

  /** The preview of one table a route returns. */
  datatype SubjectView = SubjectView(name: string, records: seq<map<Cell, Cell>>, columns: seq<Cell>, rowCount: nat, isLab: bool)

  /** What upload_subject_files shows of a stored table: every column. */
  function UploadView(s: Subject): (v: SubjectView)
    requires Valid(s.val)
    ensures v.columns == s.val.columns && v.rowCount == |s.val.rows| && v.isLab == IsLabTable(s.val)
  {
    SubjectView(s.key, Records(s.val), s.val.columns, |s.val.rows|, IsLabTable(s.val))
  }

  datatype SubjectsUploaded = SubjectsUploaded(
    message: string, subjects: seq<string>, totalStudents: nat, allStudents: seq<Cell>, preview: seq<SubjectView>)

  datatype InfoUploaded = InfoUploaded(
    message: string, studentCount: nat, columns: seq<Cell>, semesterColumns: seq<Cell>, records: seq<map<Cell, Cell>>)

  datatype UploadStatus = UploadStatus(hasSubjects: bool, hasBacklog: bool, subjects: seq<string>, totalStudents: nat, ready: bool)

  /** `[col for col in columns if col.startswith('sem')]` */
  function SemesterColumns(columns: seq<Cell>): (r: seq<Cell>)
    ensures forall c :: c in r <==> c in columns && c.Text? && StartsWith(c.s, "sem")
    ensures |r| <= |columns|
  {
    if columns == [] then []
    else
      var rest := SemesterColumns(columns[1..]);
      assert forall c :: c in columns <==> c == columns[0] || c in columns[1..];
      if columns[0].Text? && StartsWith(columns[0].s, "sem") then [columns[0]] + rest else rest
  }

  /** Every stored subject table is as ingestion leaves it, under its own name. */
  predicate SubjectsIngested(subjects: seq<Subject>) {
    && UniqueKeys(subjects)
    && forall j :: 0 <= j < |subjects| ==> Ingested(subjects[j].val)
  }

  /** A roster as process_backlog_file leaves it: well formed, with string headers. */
  predicate RosterShaped(t: Table) {
    Valid(t) && forall k :: 0 <= k < |t.columns| ==> t.columns[k].Text?
  }

  /** The module-level `uploaded_data` dict. */
  class UploadStore {
    var subjects: seq<Subject>
    var allStudents: seq<Cell>
    var backlog: Option<Table>

    ghost predicate Consistent()
      reads this
    {
      && SubjectsIngested(subjects)
      && Distinct(allStudents)
      && (backlog.Some? ==> RosterShaped(backlog.value))
    }

    constructor()
      ensures subjects == [] && allStudents == [] && backlog == None
      ensures Consistent()
    {
      subjects := [];
      allStudents := [];
      backlog := None;
    }

    /** get_upload_status */
    function Status(): (s: UploadStatus)
      reads this
      ensures s.ready == s.hasSubjects
      ensures s.hasSubjects <==> subjects != []
      ensures s.hasBacklog <==> backlog.Some?
      ensures s.subjects == KeysOf(subjects) && s.totalStudents == |allStudents|
    {
      UploadStatus(subjects != [], backlog.Some?, if subjects != [] then KeysOf(subjects) else [], |allStudents|, subjects != [])
    }

    /** upload_subject_files: every name is checked before any file is processed; a
        successful batch replaces the tables and the roll numbers and keeps the roster;
        a failure with a message leaves the store as it was. A failure whose message is
        empty passes `if error:`, so the route stores the missing tables and roll numbers
        and then fails on them with a 500. */
    method UploadSubjectFiles(files: seq<Upload>) returns (r: Result<SubjectsUploaded, HttpError>)
      requires Consistent() && WellFormed(files)
      modifies this
      ensures Consistent()
      ensures files == [] ==> r == Err(BadRequest("No files uploaded"))
      ensures files != [] && FirstNonExcel(files) < |files| ==>
                r == Err(BadRequest(InvalidType(files[FirstNonExcel(files)].filename)))
      ensures files != [] && FirstNonExcel(files) == |files| && ProcessAll(files).Err? && Message(ProcessAll(files).error) != "" ==>
                r == Err(BadRequest(Message(ProcessAll(files).error)))
      ensures files != [] && FirstNonExcel(files) == |files| && ProcessAll(files).Err? && Message(ProcessAll(files).error) == "" ==>
                r == Err(ServerError("Internal Server Error")) && subjects == [] && allStudents == [] && backlog == old(backlog)
      ensures r.Err? && !r.error.ServerError? ==> subjects == old(subjects) && allStudents == old(allStudents) && backlog == old(backlog)
      ensures r.Ok? ==> files != [] && FirstNonExcel(files) == |files| && ProcessAll(files).Ok?
      ensures r.Ok? ==> && subjects == ProcessAll(files).value.0
                        && Elems(allStudents) == ProcessAll(files).value.1
                        && backlog == old(backlog)
                        && Status().ready
                        && r.value.subjects == KeysOf(subjects)
                        && r.value.totalStudents == |allStudents| && r.value.allStudents == allStudents
                        && |r.value.preview| == |subjects|
                        && forall j :: 0 <= j < |subjects| ==> r.value.preview[j] == UploadView(subjects[j])
    {
      if files == [] {
        return Err(BadRequest("No files uploaded"));
      }
      var i := 0;
      while i < |files|
        invariant 0 <= i <= |files|
        invariant forall j :: 0 <= j < i ==> IsExcel(files[j].filename)
      {
        if !IsExcel(files[i].filename) {
          assert FirstNonExcel(files) == i;
          return Err(BadRequest(InvalidType(files[i].filename)));
        }
        i := i + 1;
      }
      var processed := ProcessSubjectFiles(files);
      if processed.Err? && Message(processed.error) != "" {
        return Err(BadRequest(Message(processed.error)));
      }
      if processed.Err? {
        subjects, allStudents := [], [];
        return Err(ServerError("Internal Server Error"));
      }
      ProcessAllIngested(files);
      var stored := processed.value.0;
      subjects, allStudents := stored, processed.value.1;
      var preview := seq(|stored|, j requires 0 <= j < |stored| && Valid(stored[j].val) => UploadView(stored[j]));
      var message := "Successfully uploaded " + IntStr(|files|) + " subject files";
      r := Ok(SubjectsUploaded(message, KeysOf(subjects), |allStudents|, allStudents, preview));
    }

    /** upload_student_info: a roster that processes replaces the stored one and nothing
        else; a bad name or a failure with a message leaves the store as it was. A failure
        whose message is empty passes `if error:`, so the route stores no roster and then
        fails on it with a 500. */
    method UploadStudentInfo(filename: string, sheet: Sheet) returns (r: Result<InfoUploaded, HttpError>)
      requires Consistent() && (sheet.Parsed? ==> Valid(sheet.table))
      modifies this
      ensures Consistent()
      ensures !IsExcel(filename) ==> r == Err(BadRequest("Invalid file type. Only Excel files (.xlsx, .xls) are allowed."))
      ensures IsExcel(filename) && ProcessBacklogFile(sheet).Err? && ProcessBacklogFile(sheet).error != "" ==>
                r == Err(BadRequest(ProcessBacklogFile(sheet).error))
      ensures IsExcel(filename) && ProcessBacklogFile(sheet).Err? && ProcessBacklogFile(sheet).error == "" ==>
                r == Err(ServerError("Internal Server Error")) && backlog == None
      ensures r.Err? ==> subjects == old(subjects) && allStudents == old(allStudents)
      ensures r.Err? && !r.error.ServerError? ==> backlog == old(backlog)
      ensures r.Ok? ==> IsExcel(filename) && ProcessBacklogFile(sheet).Ok?
      ensures r.Ok? ==> && backlog == Some(ProcessBacklogFile(sheet).value)
                        && subjects == old(subjects) && allStudents == old(allStudents)
                        && r.value.studentCount == |backlog.value.rows|
                        && r.value.columns == backlog.value.columns
                        && r.value.semesterColumns == SemesterColumns(backlog.value.columns)
    {
      if !IsExcel(filename) {
        return Err(BadRequest("Invalid file type. Only Excel files (.xlsx, .xls) are allowed."));
      }
      var processed := ProcessBacklogFile(sheet);
      if processed.Err? && processed.error != "" {
        return Err(BadRequest(processed.error));
      }
      if processed.Err? {
        backlog := None;
        return Err(ServerError("Internal Server Error"));
      }
      var t := processed.value;
      backlog := Some(t);
      var message := "Successfully uploaded student info (" + IntStr(|t.rows|) + " students)";
      r := Ok(InfoUploaded(message, |t.rows|, t.columns, SemesterColumns(t.columns), Records(t)));
    }

    /** clear_uploads */
    method Clear()
      modifies this
      ensures subjects == [] && allStudents == [] && backlog == None
      ensures Consistent()
      ensures Status() == UploadStatus(false, false, [], 0, false)
    {
      subjects := [];
      allStudents := [];
      backlog := None;
    }
  }

  /** Rejecting one file rejects the batch, whatever the others are: a batch with a file
      that is not Excel never reaches processing. */
  lemma {:induction false} OneBadNameRejects(files: seq<Upload>, k: nat)
    requires k < |files| && !IsExcel(files[k].filename)
    ensures FirstNonExcel(files) <= k
  {
    if k > 0 && IsExcel(files[0].filename) {
      OneBadNameRejects(files[1..], k - 1);
    }
  }

  /** The extension test is case-sensitive: an upper-case extension is refused. */
  lemma UpperCaseExtensionRefused()
    ensures !IsExcel("marks.XLSX")
  {
    assert "marks.XLSX"[5..] == ".XLSX";
    assert "marks.XLSX"[6..] == "XLSX";
  }
}
