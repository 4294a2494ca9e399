/** The read-only preview routes: the stored subject tables for display and one
    student's marks across them. */
module Preview {
  import opened Cells
  import opened Tables
  import opened Dicts
  import opened Ingest
  import opened Reconcile
  import opened Uploads

  // ---------------------------------------------------------------------------
  // Filtering and sorting

  /** `[x for x in xs if p(x)]` */
  function Filter(xs: seq<Cell>, p: Cell -> bool): (r: seq<Cell>)
    ensures forall x :: x in r <==> x in xs && p(x)
    ensures Distinct(xs) ==> Distinct(r)
  {
    if xs == [] then []
    else
      var rest := Filter(xs[1..], p);
      assert forall x :: x in xs <==> x == xs[0] || x in xs[1..];
      if p(xs[0]) then [xs[0]] + rest
      else rest
  }

  /** Python's `<=` on strings: code point by code point, a proper prefix first. */
  predicate StrLe(a: string, b: string) {
    a == [] || (b != [] && (a[0] < b[0] || (a[0] == b[0] && StrLe(a[1..], b[1..]))))
  }

  lemma {:induction false} StrLeTotal(a: string, b: string)
    ensures StrLe(a, b) || StrLe(b, a)
  {
    if a != [] && b != [] && a[0] == b[0] {
      StrLeTotal(a[1..], b[1..]);
    }
  }

  predicate SortedStrs(s: seq<string>) {
    forall i :: 0 <= i < |s| - 1 ==> StrLe(s[i], s[i + 1])
  }

  /** x placed before the first element it does not exceed. */
  function Insert(x: string, ys: seq<string>): (r: seq<string>)
    ensures |r| == |ys| + 1 && multiset(r) == multiset(ys) + multiset{x}
    ensures r[0] == x || (ys != [] && r[0] == ys[0])
    ensures SortedStrs(ys) ==> SortedStrs(r)
  {
    if ys == [] || StrLe(x, ys[0]) then [x] + ys
    else
      StrLeTotal(x, ys[0]);
      var rest := Insert(x, ys[1..]);
      assert ys == [ys[0]] + ys[1..];
      TailSorted(ys);
      ConsSorted(ys[0], rest);
      [ys[0]] + rest
  }

  /** A sorted sequence stays sorted without its head. */
  lemma TailSorted(ys: seq<string>)
    requires ys != []
    ensures SortedStrs(ys) ==> SortedStrs(ys[1..])
  {
    if SortedStrs(ys) {
      forall i | 0 <= i < |ys[1..]| - 1
        ensures StrLe(ys[1..][i], ys[1..][i + 1])
      {
        assert ys[1..][i] == ys[i + 1] && ys[1..][i + 1] == ys[i + 2];
      }
    }
  }

  /** A sorted sequence stays sorted with a head that does not exceed its first element. */
  lemma ConsSorted(y: string, rest: seq<string>)
    ensures SortedStrs(rest) && (rest == [] || StrLe(y, rest[0])) ==> SortedStrs([y] + rest)
  {
    if SortedStrs(rest) && (rest == [] || StrLe(y, rest[0])) {
      var r := [y] + rest;
      forall i | 0 <= i < |r| - 1
        ensures StrLe(r[i], r[i + 1])
      {
        if i > 0 {
          assert r[i] == rest[i - 1] && r[i + 1] == rest[i];
        }
      }
    }
  }

  /** sorted(xs) */
  function Sort(xs: seq<string>): (r: seq<string>)
    ensures SortedStrs(r) && multiset(r) == multiset(xs)
  {
    if xs == [] then []
    else
      assert xs == [xs[0]] + xs[1..];
      Insert(xs[0], Sort(xs[1..]))
  }

  // ---------------------------------------------------------------------------
  // get_subjects_data

  const TheoryMarkColumns: seq<Cell> := [Text("dt_marks"), Text("st_marks"), Text("at_marks"), Text("total_marks")]

  /** The columns shown for a table: all but is_lab, and for a lab table none of the four
      theory mark columns either; in the table's order. */
  function DisplayColumns(t: Table): (cols: seq<Cell>)
    requires Valid(t)
    ensures Distinct(cols)
    ensures forall c :: c in cols <==> c in t.columns && c != Text("is_lab") && !(IsLabTable(t) && c in TheoryMarkColumns)
  {
    var shown := Filter(t.columns, c => c != Text("is_lab"));
    if IsLabTable(t) then Filter(shown, c => c !in TheoryMarkColumns) else shown
  }

  /** What get_subjects_data shows of one stored table. */
  function DisplayView(s: Subject): (v: SubjectView)
    requires Valid(s.val)
  {
    var cols := DisplayColumns(s.val);
    SubjectView(s.key, Records(Select(s.val, cols)), cols, |s.val.rows|, IsLabTable(s.val))
  }

  datatype SubjectsOverview = SubjectsOverview(subjects: seq<SubjectView>, totalSubjects: nat, totalStudents: nat, allStudents: seq<Cell>)

  /** get_subjects_data over the store's tables and roll numbers. */
  function SubjectsData(subjects: seq<Subject>, allStudents: seq<Cell>): (r: Result<SubjectsOverview, HttpError>)
    requires SubjectsIngested(subjects)
    ensures r.Err? <==> subjects == []
    ensures r.Err? ==> r.error == NotFound("No subject data uploaded")
    ensures r.Ok? ==> |r.value.subjects| == r.value.totalSubjects == |subjects| && r.value.totalStudents == |allStudents|
    ensures r.Ok? ==> forall j :: 0 <= j < |subjects| ==>
              r.value.subjects[j].name == subjects[j].key && r.value.subjects[j].columns == DisplayColumns(subjects[j].val)
    ensures r.Ok? ==> forall j :: 0 <= j < |subjects| ==>
              && r.value.subjects[j].records == Records(Select(subjects[j].val, DisplayColumns(subjects[j].val)))
              && r.value.subjects[j].rowCount == |subjects[j].val.rows|
              && r.value.subjects[j].isLab == IsLabTable(subjects[j].val)
    ensures r.Ok? ==> r.value.allStudents == allStudents
  {
    if subjects == [] then Err(NotFound("No subject data uploaded"))
    else
      var views := seq(|subjects|, j requires 0 <= j < |subjects| && SubjectsIngested(subjects) => DisplayView(subjects[j]));
      Ok(SubjectsOverview(views, |subjects|, |allStudents|, allStudents))
  }

  /** A stored theory table shows all four theory mark columns and never the flag; a lab
      table shows none of them. */
  lemma TheoryTablesShowMarks(t: Table)
    requires Ingested(t)
    ensures Text("is_lab") !in DisplayColumns(t)
    ensures !IsLabTable(t) ==> forall c :: c in TheoryMarkColumns ==> c in DisplayColumns(t)
    ensures IsLabTable(t) ==> forall c :: c in TheoryMarkColumns ==> c !in DisplayColumns(t)
  {
    assert forall c :: c in TheoryMarkColumns ==> c in MarkColumns && c != Text("is_lab");
  }

  // ---------------------------------------------------------------------------
  // get_student_data

  lemma IngestedRolls(subjects: seq<Subject>)
    requires SubjectsIngested(subjects)
    ensures HasRolls(subjects)
  {
    assert "roll_no" in MinimalRequired;
  }

  datatype SubjectLine = SubjectLine(
    subject: string, dt: int, st: int, at: int, total: int, conducted: int, present: int, isLab: bool)

  datatype StudentView = StudentView(roll: string, name: string, father: string, subjects: seq<SubjectLine>)

  /** `int(v or 0)`: a falsy value reads as 0, anything else goes through int(), which may
      raise (None). */
  function IntOrZero(v: Cell): Option<int> {
    if Truthy(v) then ToInt(v) else Some(0)
  }

  const LineColumns: seq<Cell> := [
    Text("dt_marks"), Text("st_marks"), Text("at_marks"), Text("total_marks"),
    Text("attendance_conducted"), Text("attendance_present")]

  /** The six numbers of row r, read with `int(row.get(c, 0) or 0)`. */
  function LineValues(t: Table, r: nat): (vs: seq<Option<int>>)
    requires Valid(t) && r < |t.rows|
    ensures |vs| == |LineColumns|
    ensures forall i :: 0 <= i < |LineColumns| ==> vs[i] == IntOrZero(GetOr(t, r, LineColumns[i], Int(0)))
  {
    seq(|LineColumns|, i requires 0 <= i < |LineColumns| => IntOrZero(GetOr(t, r, LineColumns[i], Int(0))))
  }

  /** The subject entry built from the six numbers vs of a row, or the 500 the first
      failing int() becomes. */
  function LineOf(name: string, vs: seq<Option<int>>, isLab: bool): (l: Result<SubjectLine, HttpError>)
    requires |vs| == |LineColumns|
    ensures l.Ok? <==> forall i :: 0 <= i < |vs| ==> vs[i].Some?
    ensures l.Err? ==> l.error == ServerError("Internal Server Error")
    ensures l.Ok? ==> l.value.subject == name && l.value.isLab == isLab
    ensures l.Ok? ==> [l.value.dt, l.value.st, l.value.at, l.value.total, l.value.conducted, l.value.present] ==
                      seq(|vs|, i requires 0 <= i < |vs| => vs[i].value)
  {
    if exists i :: 0 <= i < |vs| && vs[i].None? then Err(ServerError("Internal Server Error"))
    else
      var l := SubjectLine(name, vs[0].value, vs[1].value, vs[2].value, vs[3].value, vs[4].value, vs[5].value, isLab);
      assert [l.dt, l.st, l.at, l.total, l.conducted, l.present] == seq(|vs|, i requires 0 <= i < |vs| => vs[i].value);
      Ok(l)
  }

  /** What one stored table contributes: nothing when it does not hold the roll (compared
      as `str().strip()`), else the entry of its first matching row. */
  function Line(s: Subject, key: string): (l: Result<Option<SubjectLine>, HttpError>)
    requires Valid(s.val) && Text("roll_no") in s.val.columns
    ensures l == Ok(None) <==> RowFor(s.val, key).None?
    ensures l.Err? ==> l.error == ServerError("Internal Server Error")
  {
    match RowFor(s.val, key)
    case None => Ok(None)
    case Some(r) =>
      match LineOf(s.key, LineValues(s.val, r), Truthy(GetOr(s.val, r, Text("is_lab"), Bool(false))))
      case Err(e) => Err(e)
      case Ok(l) => Ok(Some(l))
  }

  /** What each stored table contributes, in store order. */
  function Lines(subjects: seq<Subject>, key: string): (ls: seq<Result<Option<SubjectLine>, HttpError>>)
    requires HasRolls(subjects)
    ensures |ls| == |subjects|
    ensures forall j :: 0 <= j < |subjects| ==> ls[j] == Line(subjects[j], key)
  {
    seq(|subjects|, j requires 0 <= j < |subjects| && HasRolls(subjects) => Line(subjects[j], key))
  }

  /** The entries the loop of get_student_data collects, or the error it raises first. */
  function Found(subjects: seq<Subject>, key: string): (f: Result<seq<SubjectLine>, HttpError>)
    requires HasRolls(subjects)
  {
    match Gather(Lines(subjects, key))
    case Err(e) => Err(e)
    case Ok(found) => Ok(Somes(found))
  }

  /** The response once the roster lookup and the loop are done. */
  function Answer(rollNo: string, identity: (string, string), found: Result<seq<SubjectLine>, HttpError>): (r: Result<StudentView, HttpError>)
    ensures found.Err? ==> r == Err(found.error)
    ensures found.Ok? && found.value == [] ==> r == Err(NotFound("Student " + rollNo + " not found in any subject data"))
    ensures r.Ok? ==> found.Ok? && r.value.subjects == found.value != [] && r.value.roll == rollNo
    ensures r.Ok? ==> r.value.name == (if identity.0 != "" then identity.0 else "Student " + rollNo)
  {
    match found
    case Err(e) => Err(e)
    case Ok(lines) =>
      if lines == [] then Err(NotFound("Student " + rollNo + " not found in any subject data"))
      else Ok(StudentView(rollNo, if identity.0 != "" then identity.0 else "Student " + rollNo, identity.1, lines))
  }

  /** get_student_data over the store's tables and roster, for the path parameter rollNo. */
  function StudentData(subjects: seq<Subject>, roster: Option<Table>, rollNo: string): (r: Result<StudentView, HttpError>)
    requires SubjectsIngested(subjects) && (roster.Some? ==> Valid(roster.value))
    ensures subjects == [] ==> r == Err(NotFound("No subject data uploaded"))
  {
    if subjects == [] then Err(NotFound("No subject data uploaded"))
    else
      IngestedRolls(subjects);
      Answer(rollNo, Identity(roster, Text(rollNo)), Found(subjects, Trim(rollNo)))
  }

  /** The loop of get_student_data over the stored tables. */
  method CollectLines(subjects: seq<Subject>, key: string) returns (f: Result<seq<SubjectLine>, HttpError>)
    requires HasRolls(subjects)
    ensures f == Found(subjects, key)
  {
    ghost var ls := Lines(subjects, key);
    ghost var found: seq<Option<SubjectLine>> := [];
    var lines: seq<SubjectLine> := [];
    assert ls[..0] == [];
    for j := 0 to |subjects|
      invariant Gather(ls[..j]) == Ok(found)
      invariant lines == Somes(found)
    {
      GatherPrefix(ls, j);
      var t := subjects[j].val;
      var row := RowFor(t, key);
      if row.Some? {
        var line := LineOf(subjects[j].key, LineValues(t, row.value), Truthy(GetOr(t, row.value, Text("is_lab"), Bool(false))));
        if line.Err? {
          assert ls[j] == Err(line.error);
          GatherFails(ls, j + 1);
          return Err(line.error);
        }
        assert ls[j] == Ok(Some(line.value));
        SomesStep(found, Some(line.value));
        found, lines := found + [Some(line.value)], lines + [line.value];
      } else {
        assert ls[j] == Ok(None);
        SomesStep(found, None);
        found := found + [None];
      }
    }
    assert ls[..|subjects|] == ls;
    f := Ok(lines);
  }

  /** get_student_data */
  method GetStudentData(subjects: seq<Subject>, roster: Option<Table>, rollNo: string) returns (r: Result<StudentView, HttpError>)
    requires SubjectsIngested(subjects) && (roster.Some? ==> Valid(roster.value))
    ensures r == StudentData(subjects, roster, rollNo)
  {
    if subjects == [] {
      return Err(NotFound("No subject data uploaded"));
    }
    IngestedRolls(subjects);
    var identity := Identity(roster, Text(rollNo));
    var found := CollectLines(subjects, Trim(rollNo));
    r := Answer(rollNo, identity, found);
  }

  /** Every error of the loop is the 500 of a failing int(). */
  lemma FoundErrors(subjects: seq<Subject>, key: string)
    requires HasRolls(subjects)
    ensures Found(subjects, key).Err? ==> Found(subjects, key).error == ServerError("Internal Server Error")
  {
    GatherError(Lines(subjects, key), ServerError("Internal Server Error"));
  }

  /** Without a failing int(), the loop finds entries exactly where the report assembler does. */
  lemma FoundAgreesWithEntries(subjects: seq<Subject>, key: string)
    requires HasRolls(subjects) && Found(subjects, key).Ok?
    ensures Found(subjects, key).value != [] <==> SubjectsOf(subjects, key) != []
  {
    var ls := Lines(subjects, key);
    var es := Entries(subjects, key);
    var found := Gather(ls).value;
    SomesEmpty(found);
    SomesEmpty(es);
    forall j | 0 <= j < |subjects|
      ensures found[j].None? <==> es[j].None?
    {
      assert ls[j] == Ok(found[j]);
    }
  }

  /** Unless an int() raises, the preview finds a student exactly when the report
      assembler finds subjects for the same trimmed roll. */
  lemma PreviewAgreesWithReport(subjects: seq<Subject>, roster: Option<Table>, rollNo: string)
    requires SubjectsIngested(subjects) && HasRolls(subjects) && (roster.Some? ==> Valid(roster.value)) && subjects != []
    requires !StudentData(subjects, roster, rollNo).Err? || !StudentData(subjects, roster, rollNo).error.ServerError?
    ensures StudentData(subjects, roster, rollNo).Ok? <==> SubjectsOf(subjects, Trim(rollNo)) != []
  {
    IngestedRolls(subjects);
    FoundErrors(subjects, Trim(rollNo));
    FoundAgreesWithEntries(subjects, Trim(rollNo));
  }

  /** A matched mark of "AB", which the report reads as absent, makes int() raise. */
  lemma AbMarkFailsLine(s: Subject, key: string, i: nat)
    requires Valid(s.val) && Text("roll_no") in s.val.columns && i < |LineColumns|
    requires RowFor(s.val, key).Some? && GetOr(s.val, RowFor(s.val, key).value, LineColumns[i], Int(0)) == Text("AB")
    ensures Line(s, key).Err?
  {
    var ab := "AB";
    assert IsAsciiUpper(ab[0]) && !IsSpace(ab[1]);
    WordIsNotAnInt(ab);
    assert LineValues(s.val, RowFor(s.val, key).value)[i].None?;
  }

  /** ... so one such table turns the whole preview into a 500. */
  lemma AbMarkFailsPreview(subjects: seq<Subject>, roster: Option<Table>, rollNo: string, j: nat, i: nat)
    requires SubjectsIngested(subjects) && HasRolls(subjects) && (roster.Some? ==> Valid(roster.value))
    requires j < |subjects| && i < |LineColumns|
    requires RowFor(subjects[j].val, Trim(rollNo)).Some?
    requires GetOr(subjects[j].val, RowFor(subjects[j].val, Trim(rollNo)).value, LineColumns[i], Int(0)) == Text("AB")
    ensures StudentData(subjects, roster, rollNo) == Err(ServerError("Internal Server Error"))
  {
    var key := Trim(rollNo);
    var ls := Lines(subjects, key);
    AbMarkFailsLine(subjects[j], key, i);
    assert ls[j].Err?;
    FoundErrors(subjects, key);
  }
}
