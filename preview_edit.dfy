/** update_student_data: overwriting one student's name and marks in the stored subject
    tables, in place, as the preview page submits them. */
module PreviewEdit {
  import opened Cells
  import opened Tables
  import opened Dicts
  import opened Ingest
  import opened Reconcile
  import opened Uploads
  import opened Preview

  /** One element of the request's `subjects` list: its `subject_name` and the other keys. */
  datatype SubjectUpdate = SubjectUpdate(name: Option<string>, fields: map<string, Cell>)

  datatype StudentUpdate = StudentUpdate(studentName: Option<string>, subjects: seq<SubjectUpdate>)

  datatype StudentUpdated = StudentUpdated(message: string, updatedSubjects: seq<string>)

  /** `df['roll_no'] = df['roll_no'].astype(str).str.strip()` */
  function TrimRolls(t: Table): (u: Table)
    requires Valid(t) && Text("roll_no") in t.columns
    ensures Valid(u) && u.columns == t.columns && |u.rows| == |t.rows|
    ensures forall r :: 0 <= r < |t.rows| ==>
              u.rows[r][IndexOf(t.columns, Text("roll_no"))] == Text(Key(t.rows[r][IndexOf(t.columns, Text("roll_no"))]))
    ensures forall r, k :: 0 <= r < |t.rows| && 0 <= k < |t.columns| && t.columns[k] != Text("roll_no") ==>
              u.rows[r][k] == t.rows[r][k]
  {
    var k := IndexOf(t.columns, Text("roll_no"));
    Table(t.columns, seq(|t.rows|, r requires 0 <= r < |t.rows| => WithCell(t.rows[r], k, Text(Key(t.rows[r][k])))))
  }

  /** One row with cell k replaced by v. */
  function WithCell(row: seq<Cell>, k: nat, v: Cell): (u: seq<Cell>)
    requires k < |row|
    ensures |u| == |row| && u[k] == v
    ensures forall j :: 0 <= j < |row| && j != k ==> u[j] == row[j]
  {
    row[k := v]
  }

  /** `subject_update.get(c, df.loc[idx, c].values[0])` for the text column c. */
  function FieldOr(fields: map<string, Cell>, t: Table, first: nat, c: Cell): Cell
    requires Valid(t) && first < |t.rows| && c.Text? && c in t.columns
  {
    if c.s in fields then fields[c.s] else t.rows[first][IndexOf(t.columns, c)]
  }

  /** `df.loc[idx, c] = subject_update.get(c, df.loc[idx, c].values[0])` for each c of names
      in turn, where first is the first row of idx. */
  function WriteFields(t: Table, sel: set<nat>, first: nat, fields: map<string, Cell>, names: seq<Cell>): (u: Table)
    requires Valid(t) && first < |t.rows|
    requires forall c :: c in names ==> c.Text? && c in t.columns
    ensures Valid(u) && u.columns == t.columns && |u.rows| == |t.rows|
    decreases |names|
  {
    if names == [] then t
    else
      var c := names[0];
      WriteFields(Assign(t, sel, c, FieldOr(fields, t, first, c)), sel, first, fields, names[1..])
  }

  /** Each named column of a selected row holds the request's value or, when the request
      has none, what the first selected row held; every other cell is left alone. */
  lemma {:induction false} WriteFieldsCell(t: Table, sel: set<nat>, first: nat, fields: map<string, Cell>, names: seq<Cell>, r: nat, k: nat)
    requires Valid(t) && first < |t.rows| && Distinct(names)
    requires forall c :: c in names ==> c.Text? && c in t.columns
    requires r < |t.rows| && k < |t.columns|
    ensures WriteFields(t, sel, first, fields, names).rows[r][k] ==
              if r in sel && t.columns[k] in names then FieldOr(fields, t, first, t.columns[k]) else t.rows[r][k]
    decreases |names|
  {
    if names != [] {
      var c := names[0];
      var t1 := Assign(t, sel, c, FieldOr(fields, t, first, c));
      var rest := names[1..];
      assert forall d :: d in rest ==> d in names && d != c;
      AssignFieldCell(t, sel, first, fields, c, r, k);
      WriteFieldsCell(t1, sel, first, fields, rest, r, k);
      assert t.columns[k] == c ==> t.columns[k] !in rest;
    }
  }

  /** Writing one field: cell k of row r changes only in column c of a selected row, and
      the other fields still read their fallback from the same first row. */
  lemma AssignFieldCell(t: Table, sel: set<nat>, first: nat, fields: map<string, Cell>, c: Cell, r: nat, k: nat)
    requires Valid(t) && first < |t.rows| && c.Text? && c in t.columns
    requires r < |t.rows| && k < |t.columns|
    ensures var t1 := Assign(t, sel, c, FieldOr(fields, t, first, c));
            && t1.columns == t.columns
            && t1.rows[r][k] == (if r in sel && t.columns[k] == c then FieldOr(fields, t, first, c) else t.rows[r][k])
            && (t.columns[k].Text? && t.columns[k] != c ==>
                  FieldOr(fields, t1, first, t.columns[k]) == FieldOr(fields, t, first, t.columns[k]))
  {
    var t1 := Assign(t, sel, c, FieldOr(fields, t, first, c));
    IndexOfDistinct(t.columns, k);
    if t.columns[k] != c {
      assert t1.rows[r][k] == t.rows[r][k];
      assert t1.rows[first][k] == t.rows[first][k];
    }
  }

  /** A table that keeps every column of an ingested one is ingested too. */
  lemma IngestedGrows(t: Table, u: Table)
    requires Ingested(t) && Valid(u) && forall c :: c in t.columns ==> c in u.columns
    ensures Ingested(u)
  {
  }

  /** The six fields the edit writes are text columns every ingested table has. */
  lemma LineColumnsIngested(t: Table)
    requires Ingested(t)
    ensures forall c :: c in LineColumns ==> c.Text? && c in t.columns
  {
    IngestedColumns(t);
    assert LineColumns == MarkColumns[..4] + [Text("attendance_conducted"), Text("attendance_present")];
  }

  /** The roll cells the edit compares, once trimmed: equal to the key as text. */
  function IsRoll(key: string): Cell -> bool {
    c => c == Text(key)
  }

  /** The edit of a table whose roll column is already trimmed: when some row holds the
      roll, the student name (when one is given) and the six fields are written on every
      such row. The flag says whether a row was found. */
  function EditRows(u: Table, key: string, studentName: Option<string>, fields: map<string, Cell>, names: seq<Cell>): (r: (Table, bool))
    requires Valid(u) && Text("roll_no") in u.columns && forall c :: c in names ==> c.Text? && c in u.columns
    ensures Valid(r.0) && |r.0.rows| == |u.rows|
    ensures r.0.columns == u.columns || (r.1 && r.0.columns == u.columns + [Text("student_name")])
  {
    var k := IndexOf(u.columns, Text("roll_no"));
    var sel := Matching(u, k, IsRoll(key));
    match FirstRow(u, k, IsRoll(key))
    case None => (u, false)
    case Some(first) =>
      var named := WriteName(u, sel, studentName);
      TextWithin(names, u.columns, named.columns);
      (WriteFields(named, sel, first, fields, names), true)
  }

  /** `if update.student_name: df.loc[idx, 'student_name'] = update.student_name` */
  function WriteName(u: Table, sel: set<nat>, studentName: Option<string>): (w: Table)
    requires Valid(u)
    ensures Valid(w) && |w.rows| == |u.rows|
    ensures w.columns == u.columns || w.columns == u.columns + [Text("student_name")]
    ensures forall d :: d in u.columns ==> d in w.columns
    ensures forall r, k :: 0 <= r < |u.rows| && 0 <= k < |u.columns| && u.columns[k] != Text("student_name") ==>
              w.columns[k] == u.columns[k] && w.rows[r][k] == u.rows[r][k]
  {
    if studentName.Some? && studentName.value != "" then Assign(u, sel, Text("student_name"), Text(studentName.value)) else u
  }

  /** What the edit does to one stored table: it trims the roll column, whether or not
      the student is there, and then edits the student's rows. */
  function EditTable(t: Table, key: string, studentName: Option<string>, fields: map<string, Cell>): (r: (Table, bool))
    requires Ingested(t)
    ensures Ingested(r.0) && |r.0.rows| == |t.rows|
    ensures r.0.columns == t.columns || r.0.columns == t.columns + [Text("student_name")]
  {
    var u := TrimRolls(t);
    LineColumnsIngested(t);
    var r := EditRows(u, key, studentName, fields, LineColumns);
    IngestedGrows(t, r.0);
    r
  }

  /** After trimming, the edit's row test picks the same first row as the `str().strip()`
      comparison get_student_data and the report make on the untrimmed table. */
  lemma TrimmedRowIsRowFor(t: Table, key: string)
    requires Valid(t) && Text("roll_no") in t.columns
    ensures FirstRow(TrimRolls(t), IndexOf(t.columns, Text("roll_no")), IsRoll(key)) == RowFor(t, key)
  {
    var k := IndexOf(t.columns, Text("roll_no"));
    var u := TrimRolls(t);
    forall r | 0 <= r < |t.rows|
      ensures IsRoll(key)(u.rows[r][k]) <==> SameKey(key)(t.rows[r][k])
    {
    }
    FirstRowAgrees(u, k, IsRoll(key), t, k, SameKey(key));
  }

  /** The edit changes a table's rows exactly when get_student_data finds the student in it. */
  lemma EditFindsWherePreviewFinds(t: Table, key: string, studentName: Option<string>, fields: map<string, Cell>)
    requires Ingested(t)
    ensures EditTable(t, key, studentName, fields).1 <==> RowFor(t, key).Some?
  {
    TrimmedRowIsRowFor(t, key);
  }

  /** The six fields are distinct and are none of roll_no, student_name and is_lab. */
  lemma LineColumnsDistinct()
    ensures Distinct(LineColumns)
    ensures Text("roll_no") !in LineColumns && Text("student_name") !in LineColumns && Text("is_lab") !in LineColumns
  {
  }

  /** On a table whose rolls are trimmed: each of the six fields on a row of the student
      holds the request's value or, when the request has none, what the student's first
      row held; every other cell but the student name is left alone. */
  lemma EditRowsCell(u: Table, key: string, studentName: Option<string>, fields: map<string, Cell>, names: seq<Cell>, r: nat, c: Cell)
    requires Valid(u) && Text("roll_no") in u.columns && Distinct(names) && forall d :: d in names ==> d.Text? && d in u.columns
    requires FirstRow(u, IndexOf(u.columns, Text("roll_no")), IsRoll(key)).Some? && r < |u.rows|
    requires c in u.columns && c != Text("student_name")
    ensures IndexOf(u.columns, c) < |EditRows(u, key, studentName, fields, names).0.rows[r]|
    ensures var k := IndexOf(u.columns, Text("roll_no"));
            var first := FirstRow(u, k, IsRoll(key)).value;
            var i := IndexOf(u.columns, c);
            EditRows(u, key, studentName, fields, names).0.rows[r][i] ==
              if u.rows[r][k] == Text(key) && c in names then FieldOr(fields, u, first, c) else u.rows[r][i]
  {
    var k := IndexOf(u.columns, Text("roll_no"));
    var first := FirstRow(u, k, IsRoll(key)).value;
    var sel := Matching(u, k, IsRoll(key));
    NamedFieldsCell(u, sel, first, studentName, fields, names, r, c);
    assert EditRows(u, key, studentName, fields, names).0 == WriteFields(WriteName(u, sel, studentName), sel, first, fields, names);
    assert r in sel <==> u.rows[r][k] == Text(key);
  }

  /** The name and then the fields written on the selected rows: a field column holds the
      request's value or the first selected row's, any other column but the name keeps
      its cell. */
  lemma NamedFieldsCell(u: Table, sel: set<nat>, first: nat, studentName: Option<string>, fields: map<string, Cell>, names: seq<Cell>, r: nat, c: Cell)
    requires Valid(u) && first < |u.rows| && Distinct(names) && forall d :: d in names ==> d.Text? && d in u.columns
    requires r < |u.rows| && c in u.columns && c != Text("student_name")
    ensures var named := WriteName(u, sel, studentName);
            var i := IndexOf(u.columns, c);
            && (forall d :: d in names ==> d.Text? && d in named.columns)
            && i < |WriteFields(named, sel, first, fields, names).rows[r]|
            && WriteFields(named, sel, first, fields, names).rows[r][i] ==
                 if r in sel && c in names then FieldOr(fields, u, first, c) else u.rows[r][i]
  {
    var named := WriteName(u, sel, studentName);
    var i := IndexOf(u.columns, c);
    assert named.columns[i] == c && IndexOf(named.columns, c) == i;
    TextWithin(names, u.columns, named.columns);
    WriteFieldsCell(named, sel, first, fields, names, r, i);
    assert named.rows[r][i] == u.rows[r][i];
    assert c in names ==> FieldOr(fields, named, first, c) == FieldOr(fields, u, first, c) by {
      assert named.rows[first][i] == u.rows[first][i];
    }
  }

  /** On a row of the student, each of the six fields holds the request's value or, when
      the request has none, what the student's first row held; the rest of the table but
      the roll and name columns is left alone. */
  lemma EditWritesFields(t: Table, key: string, studentName: Option<string>, fields: map<string, Cell>, r: nat, c: Cell)
    requires Ingested(t) && RowFor(t, key).Some? && r < |t.rows|
    requires c.Text? && c in t.columns && c != Text("roll_no") && c != Text("student_name")
    ensures IndexOf(t.columns, c) < |EditTable(t, key, studentName, fields).0.rows[r]|
    ensures var k := IndexOf(t.columns, Text("roll_no"));
            var i := IndexOf(t.columns, c);
            EditTable(t, key, studentName, fields).0.rows[r][i] ==
              if Key(t.rows[r][k]) == key && c in LineColumns then
                if c.s in fields then fields[c.s] else t.rows[RowFor(t, key).value][i]
              else t.rows[r][i]
  {
    IngestedColumns(t);
    var u := TrimRolls(t);
    LineColumnsIngested(t);
    LineColumnsDistinct();
    TrimmedRowIsRowFor(t, key);
    EditRowsCell(u, key, studentName, fields, LineColumns, r, c);
  }

  /** On a table whose rolls are trimmed: every row of the student gets the name, when a
      non-empty one is given. */
  lemma EditRowsName(u: Table, key: string, name: string, fields: map<string, Cell>, names: seq<Cell>, r: nat)
    requires Valid(u) && Text("roll_no") in u.columns && forall d :: d in names ==> d.Text? && d in u.columns
    requires Distinct(names) && Text("student_name") !in names && name != ""
    requires r < |u.rows| && u.rows[r][IndexOf(u.columns, Text("roll_no"))] == Text(key)
    ensures var e := EditRows(u, key, Some(name), fields, names).0;
            Text("student_name") in e.columns && e.rows[r][IndexOf(e.columns, Text("student_name"))] == Text(name)
  {
    var k := IndexOf(u.columns, Text("roll_no"));
    var first := FirstRow(u, k, IsRoll(key)).value;
    var sel := Matching(u, k, IsRoll(key));
    var named := WriteName(u, sel, Some(name));
    var i := IndexOf(named.columns, Text("student_name"));
    assert named.rows[r][i] == Text(name);
    TextWithin(names, u.columns, named.columns);
    assert EditRows(u, key, Some(name), fields, names).0 == WriteFields(named, sel, first, fields, names);
    WriteFieldsCell(named, sel, first, fields, names, r, i);
  }

  /** Every row of the student ends up with the name sent, when a non-empty one is sent. */
  lemma EditWritesName(t: Table, key: string, name: string, fields: map<string, Cell>, r: nat)
    requires Ingested(t) && r < |t.rows| && name != ""
    requires Key(t.rows[r][IndexOf(t.columns, Text("roll_no"))]) == key
    ensures var e := EditTable(t, key, Some(name), fields).0;
            Text("student_name") in e.columns && e.rows[r][IndexOf(e.columns, Text("student_name"))] == Text(name)
  {
    IngestedColumns(t);
    LineColumnsIngested(t);
    LineColumnsDistinct();
    EditRowsName(TrimRolls(t), key, name, fields, LineColumns, r);
  }

  /** A table without the student is still stored back with its roll column trimmed. */
  lemma EditWithoutStudent(t: Table, key: string, studentName: Option<string>, fields: map<string, Cell>)
    requires Ingested(t) && RowFor(t, key).None?
    ensures EditTable(t, key, studentName, fields) == (TrimRolls(t), false)
  {
    IngestedColumns(t);
    TrimmedRowIsRowFor(t, key);
  }

  /** The edit leaves the roll column where it was, holding each roll as `str().strip()`. */
  lemma EditTrimsRolls(t: Table, key: string, studentName: Option<string>, fields: map<string, Cell>, r: nat)
    requires Ingested(t) && r < |t.rows|
    ensures var e := EditTable(t, key, studentName, fields).0;
            var k := IndexOf(t.columns, Text("roll_no"));
            IndexOf(e.columns, Text("roll_no")) == k && e.rows[r][k] == Text(Key(t.rows[r][k]))
  {
    IngestedColumns(t);
    var k := IndexOf(t.columns, Text("roll_no"));
    var e := EditTable(t, key, studentName, fields).0;
    if RowFor(t, key).None? {
      EditWithoutStudent(t, key, studentName, fields);
    } else {
      var u := TrimRolls(t);
      LineColumnsIngested(t);
      LineColumnsDistinct();
      TrimmedRowIsRowFor(t, key);
      EditRowsCell(u, key, studentName, fields, LineColumns, r, Text("roll_no"));
    }
    assert e.columns[k] == Text("roll_no");
  }

  /** After the edit, get_student_data finds the student on the same row as before. */
  lemma EditKeepsRow(t: Table, key: string, studentName: Option<string>, fields: map<string, Cell>)
    requires Ingested(t)
    ensures Ingested(EditTable(t, key, studentName, fields).0)
    ensures RowFor(EditTable(t, key, studentName, fields).0, key) == RowFor(t, key)
  {
    IngestedColumns(t);
    LineColumnsIngested(t);
    LineColumnsDistinct();
    var u := TrimRolls(t);
    var e := EditTable(t, key, studentName, fields).0;
    assert e == EditRows(u, key, studentName, fields, LineColumns).0;
    EditRowsKeepsRolls(u, key, studentName, fields, LineColumns);
    SameRollsSameRow(u, e, key);
    TrimmedRollsSameRow(t, u, key);
  }

  /** On a table whose rolls are trimmed, the edit leaves the roll column in place and
      every roll as it was. */
  lemma EditRowsKeepsRolls(u: Table, key: string, studentName: Option<string>, fields: map<string, Cell>, names: seq<Cell>)
    requires Valid(u) && Text("roll_no") in u.columns && Distinct(names) && forall d :: d in names ==> d.Text? && d in u.columns
    requires Text("roll_no") !in names
    ensures var e := EditRows(u, key, studentName, fields, names).0;
            var k := IndexOf(u.columns, Text("roll_no"));
            && Text("roll_no") in e.columns && IndexOf(e.columns, Text("roll_no")) == k && |e.rows| == |u.rows|
            && forall r :: 0 <= r < |u.rows| ==> e.rows[r][k] == u.rows[r][k]
  {
    var e := EditRows(u, key, studentName, fields, names).0;
    var k := IndexOf(u.columns, Text("roll_no"));
    if e.columns != u.columns {
      IndexOfAppend(u.columns, [Text("student_name")], Text("roll_no"));
    }
    if FirstRow(u, k, IsRoll(key)).Some? {
      forall r | 0 <= r < |u.rows|
        ensures e.rows[r][k] == u.rows[r][k]
      {
        EditRowsCell(u, key, studentName, fields, names, r, Text("roll_no"));
      }
    }
  }

  /** Two tables with the same roll column find every student on the same row. */
  lemma SameRollsSameRow(u: Table, e: Table, key: string)
    requires Valid(u) && Valid(e) && Text("roll_no") in u.columns && Text("roll_no") in e.columns
    requires IndexOf(e.columns, Text("roll_no")) == IndexOf(u.columns, Text("roll_no")) && |e.rows| == |u.rows|
    requires forall r :: 0 <= r < |u.rows| ==>
               e.rows[r][IndexOf(u.columns, Text("roll_no"))] == u.rows[r][IndexOf(u.columns, Text("roll_no"))]
    ensures RowFor(e, key) == RowFor(u, key)
  {
    var k := IndexOf(u.columns, Text("roll_no"));
    FirstRowAgrees(e, k, SameKey(key), u, k, SameKey(key));
  }

  /** A table holding each roll of another as `str().strip()`, in the same place, finds
      every student on the same row. */
  lemma TrimmedRollsSameRow(t: Table, e: Table, key: string)
    requires Valid(t) && Valid(e) && Text("roll_no") in t.columns && Text("roll_no") in e.columns
    requires IndexOf(e.columns, Text("roll_no")) == IndexOf(t.columns, Text("roll_no")) && |e.rows| == |t.rows|
    requires forall r :: 0 <= r < |t.rows| ==>
               e.rows[r][IndexOf(t.columns, Text("roll_no"))] == Text(Key(t.rows[r][IndexOf(t.columns, Text("roll_no"))]))
    ensures RowFor(e, key) == RowFor(t, key)
  {
    var k := IndexOf(t.columns, Text("roll_no"));
    forall r | 0 <= r < |t.rows|
      ensures SameKey(key)(e.rows[r][k]) <==> SameKey(key)(t.rows[r][k])
    {
      KeyOfKey(t.rows[r][k]);
    }
    FirstRowAgrees(e, k, SameKey(key), t, k, SameKey(key));
  }

  /** Round trip: once a field is set to an integer for a student, get_student_data reads
      that integer back for the same roll. */
  lemma PreviewReadsEdit(t: Table, key: string, studentName: Option<string>, fields: map<string, Cell>, c: Cell)
    requires Ingested(t) && RowFor(t, key).Some?
    requires c.Text? && c in LineColumns && c.s in fields && fields[c.s].Int?
    ensures var e := EditTable(t, key, studentName, fields).0;
            Ingested(e) && RowFor(e, key) == RowFor(t, key) &&
            IntOrZero(GetOr(e, RowFor(t, key).value, c, Int(0))) == Some(fields[c.s].i)
  {
    var e := EditTable(t, key, studentName, fields).0;
    var first := RowFor(t, key).value;
    assert Ingested(e) && RowFor(e, key) == RowFor(t, key) by {
      EditKeepsRow(t, key, studentName, fields);
    }
    assert c in t.columns && c != Text("roll_no") && c != Text("student_name") by {
      LineColumnsIngested(t);
      LineColumnsDistinct();
    }
    var i := IndexOf(t.columns, c);
    assert e.rows[first][i] == fields[c.s] by {
      EditWritesFields(t, key, studentName, fields, first, c);
    }
    assert c in e.columns && IndexOf(e.columns, c) == i by {
      if e.columns != t.columns {
        IndexOfAppend(t.columns, [Text("student_name")], c);
      }
    }
    var v := fields[c.s];
    assert GetOr(e, first, c, Int(0)) == v;
    ReadsInt(v);
  }

  /** int(v or 0) of an integer is that integer, zero included. */
  lemma ReadsInt(v: Cell)
    requires v.Int?
    ensures IntOrZero(v) == Some(v.i)
  {
  }

  /** The stored table under a name is one ingestion left. */
  lemma StoredIngested(subjects: seq<Subject>, n: string)
    requires SubjectsIngested(subjects) && Find(subjects, n).Some?
    ensures Ingested(Find(subjects, n).value)
  {
  }

  /** One entry of `update.subjects`: a truthy name that is stored has its table edited in
      place (the roll column is trimmed even when the student is not there); the name is
      reported when the student was found. */
  function ApplyUpdate(subjects: seq<Subject>, key: string, studentName: Option<string>, u: SubjectUpdate): (r: (seq<Subject>, Option<string>))
    requires SubjectsIngested(subjects)
  {
    if u.name.Some? && u.name.value != "" && Find(subjects, u.name.value).Some? then
      var n := u.name.value;
      StoredIngested(subjects, n);
      var e := EditTable(Find(subjects, n).value, key, studentName, u.fields);
      (Put(subjects, n, e.0), if e.1 then Some(n) else None)
    else (subjects, None)
  }

  /** The name an entry of `update.subjects` has reported for it: a truthy name that is
      stored, whose table holds the student. */
  function Hit(subjects: seq<Subject>, key: string, u: SubjectUpdate): (h: Option<string>)
    requires SubjectsIngested(subjects)
  {
    if u.name.Some? && u.name.value != "" && Find(subjects, u.name.value).Some? then
      StoredIngested(subjects, u.name.value);
      if RowFor(Find(subjects, u.name.value).value, key).Some? then u.name else None
    else None
  }

  /** Two stores with the same names in the same order, whose tables hold the student in
      the same first row. */
  predicate SameRolls(a: seq<Subject>, b: seq<Subject>, key: string)
    requires SubjectsIngested(a) && SubjectsIngested(b)
  {
    && |a| == |b|
    && forall j :: 0 <= j < |a| ==> a[j].key == b[j].key && RowFor(a[j].val, key) == RowFor(b[j].val, key)
  }

  /** Stores with the same rolls report the same hits. */
  lemma SameRollsHit(a: seq<Subject>, b: seq<Subject>, key: string, u: SubjectUpdate)
    requires SubjectsIngested(a) && SubjectsIngested(b) && SameRolls(a, b, key)
    ensures Hit(a, key, u) == Hit(b, key, u)
  {
    if u.name.Some? {
      var i := SameKeysFind(a, b, u.name.value);
    }
  }

  /** The entries of `update.subjects` applied in order: the tables afterwards and the
      names reported. The stored names, their order and the student's row in each table
      stay as they were. */
  function ApplyUpdates(subjects: seq<Subject>, key: string, studentName: Option<string>, us: seq<SubjectUpdate>): (r: (seq<Subject>, seq<string>))
    requires SubjectsIngested(subjects)
    ensures SubjectsIngested(r.0) && SameRolls(r.0, subjects, key)
    decreases |us|
  {
    if us == [] then (subjects, [])
    else
      var prev := ApplyUpdates(subjects, key, studentName, us[..|us| - 1]);
      var step := ApplyUpdate(prev.0, key, studentName, us[|us| - 1]);
      ApplyUpdatePreserves(prev.0, key, studentName, us[|us| - 1]);
      (step.0, prev.1 + if step.1.Some? then [step.1.value] else [])
  }

  /** One entry keeps the names, their order and the student's rows, changes no table but
      the one it names, and reports exactly a hit. */
  lemma ApplyUpdatePreserves(subjects: seq<Subject>, key: string, studentName: Option<string>, u: SubjectUpdate)
    requires SubjectsIngested(subjects)
    ensures var r := ApplyUpdate(subjects, key, studentName, u);
            && SubjectsIngested(r.0) && SameRolls(r.0, subjects, key)
            && (forall j :: 0 <= j < |subjects| && u.name != Some(subjects[j].key) ==> r.0[j] == subjects[j])
            && r.1 == Hit(subjects, key, u)
  {
    if u.name.Some? && u.name.value != "" && Find(subjects, u.name.value).Some? {
      var n := u.name.value;
      var i :| 0 <= i < |subjects| && subjects[i] == Entry(n, Find(subjects, n).value);
      var t := subjects[i].val;
      var e := ApplyAt(subjects, key, studentName, u, i);
      assert Ingested(e.0) && RowFor(e.0, key) == RowFor(t, key) by { EditKeepsRow(t, key, studentName, u.fields); }
      assert e.1 <==> RowFor(t, key).Some? by { EditFindsWherePreviewFinds(t, key, studentName, u.fields); }
      SameRollsReplace(subjects, i, e.0, key);
      var d := subjects[i := Entry(n, e.0)];
      forall j | 0 <= j < |subjects| && u.name != Some(subjects[j].key)
        ensures d[j] == subjects[j]
      {
        assert j != i;
      }
    }
  }

  /** The entry naming the i-th stored subject replaces that table, and only it, by its
      edit, and reports the name when the edit found the student. */
  lemma ApplyAt(subjects: seq<Subject>, key: string, studentName: Option<string>, u: SubjectUpdate, i: nat) returns (e: (Table, bool))
    requires SubjectsIngested(subjects) && i < |subjects| && u.name == Some(subjects[i].key) && subjects[i].key != ""
    ensures Ingested(subjects[i].val) && e == EditTable(subjects[i].val, key, studentName, u.fields)
    ensures ApplyUpdate(subjects, key, studentName, u) == (subjects[i := Entry(subjects[i].key, e.0)], if e.1 then u.name else None)
    ensures Hit(subjects, key, u) == if RowFor(subjects[i].val, key).Some? then u.name else None
  {
    FindAt(subjects, i);
    PutAt(subjects, i, EditTable(subjects[i].val, key, studentName, u.fields).0);
    e := EditTable(subjects[i].val, key, studentName, u.fields);
  }

  /** Replacing one table by an ingested one with the same row for the student keeps the
      store ingested and its rolls the same. */
  lemma SameRollsReplace(a: seq<Subject>, i: nat, t: Table, key: string)
    requires SubjectsIngested(a) && i < |a| && Ingested(t) && RowFor(t, key) == RowFor(a[i].val, key)
    ensures SubjectsIngested(a[i := Entry(a[i].key, t)]) && SameRolls(a[i := Entry(a[i].key, t)], a, key)
  {
    var d := a[i := Entry(a[i].key, t)];
    ReplaceKeeps(a, i, t, Ingested);
    forall j | 0 <= j < |d|
      ensures RowFor(d[j].val, key) == RowFor(a[j].val, key)
    {
      if j != i {
        assert d[j] == a[j];
      }
    }
  }

  /** The hit of each entry of a request, in request order. */
  function Hits(subjects: seq<Subject>, key: string, us: seq<SubjectUpdate>): (h: seq<Option<string>>)
    requires SubjectsIngested(subjects)
    ensures |h| == |us|
    decreases |us|
  {
    if us == [] then [] else Hits(subjects, key, us[..|us| - 1]) + [Hit(subjects, key, us[|us| - 1])]
  }

  /** `updated_subjects` lists, in request order, each entry whose truthy name is stored
      and whose table held the student before the request; a subject named twice is listed
      twice. */
  lemma {:induction false} ApplyUpdatesNames(subjects: seq<Subject>, key: string, studentName: Option<string>, us: seq<SubjectUpdate>)
    requires SubjectsIngested(subjects)
    ensures ApplyUpdates(subjects, key, studentName, us).1 == Somes(Hits(subjects, key, us))
    decreases |us|
  {
    if us != [] {
      var init := us[..|us| - 1];
      var u := us[|us| - 1];
      var prev := ApplyUpdates(subjects, key, studentName, init);
      ApplyUpdatesNames(subjects, key, studentName, init);
      ApplyUpdatePreserves(prev.0, key, studentName, u);
      SameRollsHit(prev.0, subjects, key, u);
      SomesStep(Hits(subjects, key, init), Hit(subjects, key, u));
    }
  }

  /** A roll number no stored table holds is reported for no subject. */
  lemma UnknownRollUpdatesNothing(subjects: seq<Subject>, key: string, studentName: Option<string>, us: seq<SubjectUpdate>)
    requires SubjectsIngested(subjects)
    requires forall j :: 0 <= j < |subjects| ==> RowFor(subjects[j].val, key).None?
    ensures ApplyUpdates(subjects, key, studentName, us).1 == []
  {
    ApplyUpdatesNames(subjects, key, studentName, us);
    NoHits(subjects, key, us);
  }

  /** No entry hits a student no stored table holds. */
  lemma {:induction false} NoHits(subjects: seq<Subject>, key: string, us: seq<SubjectUpdate>)
    requires SubjectsIngested(subjects)
    requires forall j :: 0 <= j < |subjects| ==> RowFor(subjects[j].val, key).None?
    ensures Somes(Hits(subjects, key, us)) == []
    decreases |us|
  {
    if us != [] {
      var init := us[..|us| - 1];
      var u := us[|us| - 1];
      NoHits(subjects, key, init);
      if u.name.Some? && Find(subjects, u.name.value).Some? {
        var i :| 0 <= i < |subjects| && subjects[i] == Entry(u.name.value, Find(subjects, u.name.value).value);
      }
      assert Hit(subjects, key, u).None?;
      SomesStep(Hits(subjects, key, init), Hit(subjects, key, u));
    }
  }

  /** A table no entry of the request names is left exactly as it was: its roll column is
      not even trimmed. */
  lemma {:induction false} ApplyUpdatesUntouched(subjects: seq<Subject>, key: string, studentName: Option<string>, us: seq<SubjectUpdate>, j: nat)
    requires SubjectsIngested(subjects) && j < |subjects|
    requires forall k :: 0 <= k < |us| ==> us[k].name != Some(subjects[j].key)
    ensures ApplyUpdates(subjects, key, studentName, us).0[j] == subjects[j]
    decreases |us|
  {
    if us != [] {
      var init := us[..|us| - 1];
      var prev := ApplyUpdates(subjects, key, studentName, init);
      ApplyUpdatesUntouched(subjects, key, studentName, init, j);
      ApplyUpdatePreserves(prev.0, key, studentName, us[|us| - 1]);
    }
  }

  /** A request with one entry for a stored subject holding the student, whose fields give
      an integer for one of the six columns: get_student_data then reads that integer in
      the subject's table, and the subject is reported as updated. */
  lemma UpdateThenRead(subjects: seq<Subject>, key: string, studentName: Option<string>, i: nat, fields: map<string, Cell>, c: Cell)
    requires SubjectsIngested(subjects) && i < |subjects| && subjects[i].key != ""
    requires RowFor(subjects[i].val, key).Some?
    requires c.Text? && c in LineColumns && c.s in fields && fields[c.s].Int?
    ensures var r := ApplyUpdates(subjects, key, studentName, [SubjectUpdate(Some(subjects[i].key), fields)]);
            && r.1 == [subjects[i].key]
            && Ingested(r.0[i].val) && RowFor(r.0[i].val, key) == RowFor(subjects[i].val, key)
            && IntOrZero(GetOr(r.0[i].val, RowFor(subjects[i].val, key).value, c, Int(0))) == Some(fields[c.s].i)
  {
    var u := SubjectUpdate(Some(subjects[i].key), fields);
    assert [u][..0] == [];
    var e := ApplyAt(subjects, key, studentName, u, i);
    EditFindsWherePreviewFinds(subjects[i].val, key, studentName, fields);
    PreviewReadsEdit(subjects[i].val, key, studentName, fields, c);
  }

  /** One more entry of the request is one more step of the fold. */
  lemma ApplyUpdatesStep(subjects: seq<Subject>, key: string, studentName: Option<string>, us: seq<SubjectUpdate>, i: nat)
    requires SubjectsIngested(subjects) && i < |us|
    ensures var prev := ApplyUpdates(subjects, key, studentName, us[..i]);
            var step := ApplyUpdate(prev.0, key, studentName, us[i]);
            ApplyUpdates(subjects, key, studentName, us[..i + 1]) == (step.0, prev.1 + if step.1.Some? then [step.1.value] else [])
  {
    assert us[..i + 1][..i] == us[..i];
  }

  /** The body of update_student_data's loop for one entry: a truthy name that is stored
      has its table edited in place; the name is returned when the student was found. */
  method UpdateSubject(store: UploadStore, key: string, studentName: Option<string>, u: SubjectUpdate) returns (hit: Option<string>)
    requires SubjectsIngested(store.subjects)
    modifies store
    ensures (store.subjects, hit) == ApplyUpdate(old(store.subjects), key, studentName, u)
    ensures store.allStudents == old(store.allStudents) && store.backlog == old(store.backlog)
  {
    var subjects := store.subjects;
    hit := None;
    if u.name.Some? && u.name.value != "" {
      var found := Find(subjects, u.name.value);
      if found.Some? {
        StoredIngested(subjects, u.name.value);
        var e := EditTable(found.value, key, studentName, u.fields);
        subjects := Put(subjects, u.name.value, e.0);
        if e.1 {
          hit := Some(u.name.value);
        }
      }
    }
    store.subjects := subjects;
  }

  /** update_student_data: with no subject data the store is left alone; otherwise each
      entry of `update.subjects` is applied in turn to the stored tables, and the store's
      roll numbers and roster are left alone. */
  method UpdateStudentData(store: UploadStore, rollNo: string, update: StudentUpdate) returns (r: Result<StudentUpdated, HttpError>)
    requires store.Consistent()
    modifies store
    ensures store.Consistent()
    ensures store.allStudents == old(store.allStudents) && store.backlog == old(store.backlog)
    ensures old(store.subjects) == [] ==> r == Err(NotFound("No subject data uploaded")) && store.subjects == []
    ensures old(store.subjects) != [] ==>
              var a := ApplyUpdates(old(store.subjects), Trim(rollNo), update.studentName, update.subjects);
              && store.subjects == a.0
              && r == Ok(StudentUpdated("Updated data for " + rollNo, a.1))
  {
    if store.subjects == [] {
      return Err(NotFound("No subject data uploaded"));
    }
    var updated := UpdateSubjects(store, Trim(rollNo), update.studentName, update.subjects);
    r := Ok(StudentUpdated("Updated data for " + rollNo, updated));
  }

  /** The loop of update_student_data over `update.subjects`, for the trimmed roll. */
  method UpdateSubjects(store: UploadStore, key: string, studentName: Option<string>, us: seq<SubjectUpdate>)
    returns (updated: seq<string>)
    requires store.Consistent()
    modifies store
    ensures store.Consistent()
    ensures store.allStudents == old(store.allStudents) && store.backlog == old(store.backlog)
    ensures (store.subjects, updated) == ApplyUpdates(old(store.subjects), key, studentName, us)
  {
    updated := [];
    for i := 0 to |us|
      invariant store.allStudents == old(store.allStudents) && store.backlog == old(store.backlog)
      invariant (store.subjects, updated) == ApplyUpdates(old(store.subjects), key, studentName, us[..i])
    {
      ghost var before := updated;
      ApplyUpdatesStep(old(store.subjects), key, studentName, us, i);
      var hit := UpdateSubject(store, key, studentName, us[i]);
      if hit.Some? {
        updated := updated + [hit.value];
      }
      assert updated == before + if hit.Some? then [hit.value] else [];
    }
    assert us[..|us|] == us;
  }
}
