/** The student-info routes of the preview page: the stored roster for display, and the
    edit that overwrites one student's name, father's name and semester backlogs in it. */
module PreviewBacklog {
  import opened Cells
  import opened Tables
  import opened Reconcile
  import opened Uploads
  import opened Preview

  // ---------------------------------------------------------------------------
  // get_backlog_data

  datatype BacklogView = BacklogView(records: seq<map<Cell, Cell>>, columns: seq<Cell>, semesterColumns: seq<string>, studentCount: nat)

  /** The labels of text columns, in order. */
  function Labels(cs: seq<Cell>): (r: seq<string>)
    requires forall c :: c in cs ==> c.Text?
    ensures |r| == |cs| && forall i :: 0 <= i < |cs| ==> r[i] == cs[i].s
  {
    if cs == [] then [] else [cs[0].s] + Labels(cs[1..])
  }

  /** get_backlog_data over the stored roster. */
  function BacklogData(backlog: Option<Table>): (r: Result<BacklogView, HttpError>)
    requires backlog.Some? ==> RosterShaped(backlog.value)
    ensures backlog.None? ==> r == Err(NotFound("No student info uploaded"))
    ensures backlog.Some? ==> && r.Ok?
                              && r.value.columns == backlog.value.columns
                              && r.value.records == Records(backlog.value)
                              && r.value.studentCount == |backlog.value.rows|
  {
    if backlog.None? then Err(NotFound("No student info uploaded"))
    else
      var t := backlog.value;
      Ok(BacklogView(Records(t), t.columns, Sort(Labels(SemesterColumns(t.columns))), |t.rows|))
  }

  /** The semester columns come sorted, each once: exactly the labels that start with
      "sem". */
  lemma BacklogSemestersSorted(t: Table)
    requires RosterShaped(t)
    ensures var s := BacklogData(Some(t)).value.semesterColumns;
            && SortedStrs(s)
            && (forall x :: x in s <==> Text(x) in t.columns && StartsWith(x, "sem"))
            && |s| == |SemesterColumns(t.columns)|
  {
    var sem := SemesterColumns(t.columns);
    var labels := Labels(sem);
    var s := Sort(labels);
    assert multiset(s) == multiset(labels);
    forall x
      ensures x in s <==> Text(x) in t.columns && StartsWith(x, "sem")
    {
      assert x in s <==> x in multiset(s);
      assert x in labels <==> x in multiset(labels);
      if Text(x) in t.columns && StartsWith(x, "sem") {
        var i :| 0 <= i < |sem| && sem[i] == Text(x);
        assert labels[i] == x;
      }
    }
    assert |s| == |multiset(s)| == |multiset(labels)| == |labels|;
  }

  // ---------------------------------------------------------------------------
  // update_backlog_data

  /** The request body; `backlogs` holds the dict's items in order. */
  datatype BacklogUpdate = BacklogUpdate(studentName: Option<string>, fatherName: Option<string>, backlogs: seq<(string, string)>)

  /** The rows `df[df[roll_col] == roll_no]` selects: a text cell equal to the roll number
      as sent, untrimmed; a number never equals a string. */
  function IsRollText(rollNo: string): Cell -> bool {
    c => PyEq(c, Text(rollNo))
  }

  /** The index of the first candidate that is a column: the loop
      `for col in candidates: if col in df.columns: ... break`. */
  method FindColumn(t: Table, candidates: seq<Cell>) returns (k: nat)
    ensures k == FirstColumn(t, candidates)
  {
    k := 0;
    while k < |candidates| && candidates[k] !in t.columns
      invariant k <= |candidates|
      invariant forall i :: 0 <= i < k ==> candidates[i] !in t.columns
      invariant FirstColumn(t, candidates) == k + FirstColumn(t, candidates[k..])
    {
      assert candidates[k..][1..] == candidates[k + 1..];
      k := k + 1;
    }
    assert k < |candidates| ==> candidates[k..][0] == candidates[k];
  }

  /** `if value: df.loc[idx, col] = value` for the first candidate col that is a column. */
  function WriteFirst(t: Table, sel: set<nat>, candidates: seq<Cell>, value: Option<string>): (u: Table)
    requires RosterShaped(t)
    ensures RosterShaped(u) && u.columns == t.columns && |u.rows| == |t.rows|
  {
    var k := FirstColumn(t, candidates);
    if value.Some? && value.value != "" && k < |candidates| then Assign(t, sel, candidates[k], Text(value.value)) else t
  }

  /** `value if value else None`: an empty backlog entry clears the cell. */
  function BacklogCell(value: string): (c: Cell)
    ensures c.Missing? <==> value == ""
    ensures c.Text? ==> c.s == value
  {
    if value != "" then Text(value) else Missing
  }

  /** One item of `update.backlogs`: written on the selected rows when it names a column. */
  function WriteBacklog(t: Table, sel: set<nat>, item: (string, string)): (u: Table)
    requires RosterShaped(t)
    ensures RosterShaped(u) && u.columns == t.columns && |u.rows| == |t.rows|
  {
    if Text(item.0) in t.columns then Assign(t, sel, Text(item.0), BacklogCell(item.1)) else t
  }

  /** The items of `update.backlogs` written in order. */
  function WriteBacklogs(t: Table, sel: set<nat>, items: seq<(string, string)>): (u: Table)
    requires RosterShaped(t)
    ensures RosterShaped(u) && u.columns == t.columns && |u.rows| == |t.rows|
    decreases |items|
  {
    if items == [] then t else WriteBacklog(WriteBacklogs(t, sel, items[..|items| - 1]), sel, items[|items| - 1])
  }

  /** The position of the last item that names column c, if any does. */
  function LastIndex(items: seq<(string, string)>, c: string): (k: Option<nat>)
    ensures k.None? ==> forall i :: 0 <= i < |items| ==> items[i].0 != c
    ensures k.Some? ==> k.value < |items| && items[k.value].0 == c
    ensures k.Some? ==> forall j :: k.value < j < |items| ==> items[j].0 != c
    decreases |items|
  {
    if items == [] then None
    else if items[|items| - 1].0 == c then Some(|items| - 1)
    else
      var k := LastIndex(items[..|items| - 1], c);
      assert forall i :: 0 <= i < |items| - 1 ==> items[..|items| - 1][i] == items[i];
      k
  }

  /** The value the last item for a column carries, if any item names it. */
  function LastValue(items: seq<(string, string)>, c: string): (v: Option<string>)
    ensures v.Some? <==> exists i :: 0 <= i < |items| && items[i].0 == c
    ensures v.Some? ==> exists i :: 0 <= i < |items| && items[i] == (c, v.value) && forall j :: i < j < |items| ==> items[j].0 != c
  {
    var k := LastIndex(items, c);
    if k.Some? then Some(items[k.value].1) else None
  }

  predicate HasRollColumn(t: Table) {
    FirstColumn(t, RollColumns) < |RollColumns|
  }

  /** Row i's cell in the first roll column the roster has. */
  function RollCell(t: Table, i: nat): Cell
    requires Valid(t) && HasRollColumn(t) && i < |t.rows|
  {
    t.rows[i][IndexOf(t.columns, RollColumns[FirstColumn(t, RollColumns)])]
  }

  /** The edit of the roster, or the error the route raises before touching it. */
  function EditRoster(t: Table, rollNo: string, update: BacklogUpdate): (r: Result<Table, HttpError>)
    requires RosterShaped(t)
    ensures !HasRollColumn(t) ==> r == Err(BadRequest("No roll_no column in backlog data"))
    ensures HasRollColumn(t) ==>
              (r.Err? <==> forall i :: 0 <= i < |t.rows| ==> !IsRollText(rollNo)(RollCell(t, i)))
    ensures HasRollColumn(t) && r.Err? ==> r.error == NotFound("Student " + rollNo + " not found in backlog data")
    ensures r.Ok? ==> RosterShaped(r.value) && r.value.columns == t.columns && |r.value.rows| == |t.rows|
  {
    if !HasRollColumn(t) then Err(BadRequest("No roll_no column in backlog data"))
    else
      var sel := Selected(t, rollNo);
      if sel == {} then Err(NotFound("Student " + rollNo + " not found in backlog data"))
      else Ok(Overwrite(t, sel, update))
  }

  /** The rows whose roll cell is the roll number as sent. */
  function Selected(t: Table, rollNo: string): (sel: set<nat>)
    requires Valid(t) && HasRollColumn(t)
    ensures forall i: nat :: i in sel <==> i < |t.rows| && IsRollText(rollNo)(RollCell(t, i))
  {
    Matching(t, IndexOf(t.columns, RollColumns[FirstColumn(t, RollColumns)]), IsRollText(rollNo))
  }

  /** The writes of the edit on the selected rows: name, father's name, then each backlog. */
  function Overwrite(t: Table, sel: set<nat>, update: BacklogUpdate): (u: Table)
    requires RosterShaped(t)
    ensures RosterShaped(u) && u.columns == t.columns && |u.rows| == |t.rows|
  {
    var named := WriteFirst(t, sel, NameColumns, update.studentName);
    var fathered := WriteFirst(named, sel, FatherColumns, update.fatherName);
    WriteBacklogs(fathered, sel, update.backlogs)
  }

  /** update_backlog_data: with no roster, no roll column or no such student the store is
      left alone; otherwise the roster's selected rows are overwritten in place and nothing
      else in the store changes. */
  method UpdateBacklogData(store: UploadStore, rollNo: string, update: BacklogUpdate) returns (r: Result<string, HttpError>)
    requires store.Consistent()
    modifies store
    ensures store.Consistent()
    ensures store.subjects == old(store.subjects) && store.allStudents == old(store.allStudents)
    ensures old(store.backlog).None? ==> r == Err(NotFound("No student info uploaded")) && store.backlog == None
    ensures old(store.backlog).Some? ==>
              var e := EditRoster(old(store.backlog).value, rollNo, update);
              && (e.Err? ==> r == Err(e.error) && store.backlog == old(store.backlog))
              && (e.Ok? ==> r == Ok("Updated backlog data for " + rollNo) && store.backlog == Some(e.value))
  {
    if store.backlog.None? {
      return Err(NotFound("No student info uploaded"));
    }
    var t := store.backlog.value;
    var k := FindColumn(t, RollColumns);
    if k == |RollColumns| {
      return Err(BadRequest("No roll_no column in backlog data"));
    }
    var sel := Matching(t, IndexOf(t.columns, RollColumns[k]), IsRollText(rollNo));
    if sel == {} {
      return Err(NotFound("Student " + rollNo + " not found in backlog data"));
    }
    t := WriteFirst(t, sel, NameColumns, update.studentName);
    t := WriteFirst(t, sel, FatherColumns, update.fatherName);
    ghost var fathered := t;
    for i := 0 to |update.backlogs|
      invariant RosterShaped(t)
      invariant t == WriteBacklogs(fathered, sel, update.backlogs[..i])
    {
      assert update.backlogs[..i + 1][..i] == update.backlogs[..i];
      t := WriteBacklog(t, sel, update.backlogs[i]);
    }
    assert update.backlogs[..|update.backlogs|] == update.backlogs;
    store.backlog := Some(t);
    r := Ok("Updated backlog data for " + rollNo);
  }

  // ---------------------------------------------------------------------------
  // What the edit writes

  /** Whether `if value: for col in candidates: ... df.loc[idx, col] = value; break` writes
      into column c. */
  predicate WritesTo(t: Table, candidates: seq<Cell>, value: Option<string>, c: Cell) {
    && value.Some? && value.value != ""
    && FirstColumn(t, candidates) < |candidates| && c == candidates[FirstColumn(t, candidates)]
  }

  /** What the edit leaves in column c of a selected row, if it writes there at all: the last
      backlog item naming c wins over the father's and the student's name. */
  function Written(t: Table, update: BacklogUpdate, c: Cell): Option<Cell> {
    if c.Text? && LastValue(update.backlogs, c.s).Some? then Some(BacklogCell(LastValue(update.backlogs, c.s).value))
    else if WritesTo(t, FatherColumns, update.fatherName, c) then Some(Text(update.fatherName.value))
    else if WritesTo(t, NameColumns, update.studentName, c) then Some(Text(update.studentName.value))
    else None
  }

  /** The student's name or father's name lands in the first of its candidate columns the
      roster has, on the selected rows only. */
  lemma WriteFirstCell(t: Table, sel: set<nat>, candidates: seq<Cell>, value: Option<string>, r: nat, j: nat)
    requires RosterShaped(t) && r < |t.rows| && j < |t.columns|
    ensures WriteFirst(t, sel, candidates, value).rows[r][j] ==
              if r in sel && WritesTo(t, candidates, value, t.columns[j]) then Text(value.value) else t.rows[r][j]
  {
    IndexOfDistinct(t.columns, j);
  }

  /** After the backlog items, a selected cell holds the last item for its column; every
      other cell is as before. */
  lemma {:induction false} WriteBacklogsCell(t: Table, sel: set<nat>, items: seq<(string, string)>, r: nat, j: nat)
    requires RosterShaped(t) && r < |t.rows| && j < |t.columns|
    ensures WriteBacklogs(t, sel, items).rows[r][j] ==
              if r in sel && t.columns[j].Text? && LastValue(items, t.columns[j].s).Some?
              then BacklogCell(LastValue(items, t.columns[j].s).value) else t.rows[r][j]
    decreases |items|
  {
    if items != [] {
      var init := items[..|items| - 1];
      var last := items[|items| - 1];
      WriteBacklogsCell(t, sel, init, r, j);
      var u := WriteBacklogs(t, sel, init);
      IndexOfDistinct(u.columns, j);
    }
  }

  /** A successful edit leaves each selected row holding what the request writes to each
      column and every other cell as it was; the rows not selected are untouched. */
  lemma EditRosterCell(t: Table, rollNo: string, update: BacklogUpdate, r: nat, j: nat)
    requires RosterShaped(t) && EditRoster(t, rollNo, update).Ok? && r < |t.rows| && j < |t.columns|
    ensures EditRoster(t, rollNo, update).value.rows[r][j] ==
              if IsRollText(rollNo)(RollCell(t, r)) && Written(t, update, t.columns[j]).Some?
              then Written(t, update, t.columns[j]).value else t.rows[r][j]
  {
    var sel := Selected(t, rollNo);
    var named := WriteFirst(t, sel, NameColumns, update.studentName);
    var fathered := WriteFirst(named, sel, FatherColumns, update.fatherName);
    assert EditRoster(t, rollNo, update).value == WriteBacklogs(fathered, sel, update.backlogs);
    var c := t.columns[j];
    WriteFirstCell(t, sel, NameColumns, update.studentName, r, j);
    WriteFirstCell(named, sel, FatherColumns, update.fatherName, r, j);
    WriteBacklogsCell(fathered, sel, update.backlogs, r, j);
    FirstColumnOfColumns(named, t, FatherColumns);
    var e := EditRoster(t, rollNo, update).value;
    if r in sel && c.Text? && LastValue(update.backlogs, c.s).Some? {
      assert e.rows[r][j] == Written(t, update, c).value;
    } else if r in sel && WritesTo(t, FatherColumns, update.fatherName, c) {
      assert e.rows[r][j] == Written(t, update, c).value;
    } else if r in sel && WritesTo(t, NameColumns, update.studentName, c) {
      assert e.rows[r][j] == Written(t, update, c).value;
    } else {
      assert e.rows[r][j] == t.rows[r][j];
    }
  }

  /** A roster whose roll column Excel read as numbers can never be edited: a number is
      never equal to the roll number the route receives as a string. */
  lemma NumericRollsNotEditable(t: Table, rollNo: string, update: BacklogUpdate)
    requires RosterShaped(t) && HasRollColumn(t)
    requires forall i :: 0 <= i < |t.rows| ==> RollCell(t, i).Int?
    ensures EditRoster(t, rollNo, update) == Err(NotFound("Student " + rollNo + " not found in backlog data"))
  {
  }

  /** Yet the reading side finds such a student: get_student_data and the reports look the
      roll up as str().strip(), so the roster row with the number n answers to "n". */
  lemma NumericRollIsRead(t: Table, i: nat, n: int)
    requires RosterShaped(t) && HasRollColumn(t) && i < |t.rows| && RollCell(t, i) == Int(n)
    ensures RosterRow(t, SameKey(Key(Text(IntStr(n))))).Some?
  {
    IntStrTrimmed(n);
    IntKeyMatchesText(n, IntStr(n));
    RosterRowFinds(t, SameKey(Key(Text(IntStr(n)))), i);
  }

  /** A roster row whose roll cell passes p is found by the lookup on p. */
  lemma RosterRowFinds(t: Table, p: Cell -> bool, i: nat)
    requires Valid(t) && HasRollColumn(t) && i < |t.rows| && p(RollCell(t, i))
    ensures RosterRow(t, p).Some?
  {
  }
}
