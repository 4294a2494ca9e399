/** get_student_complete_data: one student's rows from every subject table, joined on the
    roll number as str().strip(), with the name and father's name taken from the roster. */
module Reconcile {
  import opened Cells
  import opened Tables
  import opened Dicts
  import opened Ingest

  /** The roster headers tried for the roll, the name and the father's name, in order. */
  const RollColumns: seq<Cell> := [Text("roll_no"), Text("roll no"), Text("rollno")]
  const NameColumns: seq<Cell> := [Text("student_name"), Text("student name"), Text("name")]
  const FatherColumns: seq<Cell> := [Text("father_name"), Text("father name"), Text("fathername")]

  datatype PersonalInfo = PersonalInfo(roll: Cell, name: string, father: string)

  /** The values one subject contributes, with the defaults of `student_info.get`. */
  datatype SubjectEntry = SubjectEntry(
    subject: string,
    dt: Cell, st: Cell, at: Cell, total: Cell, lab: Cell,
    conducted: Cell, present: Cell,
    isLab: Cell)

  /** personal_info is empty (None) exactly when no subject table has the student. */
  datatype StudentData = StudentData(info: Option<PersonalInfo>, subjects: seq<SubjectEntry>)

  // ---------------------------------------------------------------------------
  // Lookups

  /** The index of the first candidate that is a column of t (|candidates| if none). */
  function FirstColumn(t: Table, candidates: seq<Cell>): (k: nat)
    ensures k <= |candidates|
    ensures k < |candidates| ==> candidates[k] in t.columns
    ensures forall i :: 0 <= i < k ==> candidates[i] !in t.columns
  {
    if candidates == [] then 0
    else if candidates[0] in t.columns then 0
    else 1 + FirstColumn(t, candidates[1..])
  }

  /** The column found depends on the header only. */
  lemma {:induction false} FirstColumnOfColumns(t: Table, u: Table, candidates: seq<Cell>)
    requires t.columns == u.columns
    ensures FirstColumn(t, candidates) == FirstColumn(u, candidates)
  {
    if candidates != [] && candidates[0] !in t.columns {
      FirstColumnOfColumns(t, u, candidates[1..]);
    }
  }

  /** The first row at or after i whose cell in column k satisfies p. */
  function FirstRowFrom(t: Table, k: nat, p: Cell -> bool, i: nat): (r: Option<nat>)
    requires Valid(t) && k < |t.columns| && i <= |t.rows|
    ensures r.Some? ==> i <= r.value < |t.rows| && p(t.rows[r.value][k])
    ensures r.Some? ==> forall j :: i <= j < r.value ==> !p(t.rows[j][k])
    ensures r.None? ==> forall j :: i <= j < |t.rows| ==> !p(t.rows[j][k])
    decreases |t.rows| - i
  {
    if i == |t.rows| then None
    else if p(t.rows[i][k]) then Some(i)
    else FirstRowFrom(t, k, p, i + 1)
  }

  /** `df[df[col] <test>].iloc[0]`: the index of the first row that passes. */
  function FirstRow(t: Table, k: nat, p: Cell -> bool): (r: Option<nat>)
    requires Valid(t) && k < |t.columns|
    ensures r.Some? ==> r.value < |t.rows| && p(t.rows[r.value][k])
    ensures r.Some? ==> forall j :: 0 <= j < r.value ==> !p(t.rows[j][k])
    ensures r.None? ==> forall j :: 0 <= j < |t.rows| ==> !p(t.rows[j][k])
  {
    FirstRowFrom(t, k, p, 0)
  }

  /** Two tables of the same height whose columns pass two tests on the same rows have
      the same first passing row. */
  lemma FirstRowAgrees(t: Table, k: nat, p: Cell -> bool, u: Table, l: nat, q: Cell -> bool)
    requires Valid(t) && k < |t.columns| && Valid(u) && l < |u.columns| && |t.rows| == |u.rows|
    requires forall r :: 0 <= r < |t.rows| ==> (p(t.rows[r][k]) <==> q(u.rows[r][l]))
    ensures FirstRow(t, k, p) == FirstRow(u, l, q)
  {
    var a := FirstRow(t, k, p);
    var b := FirstRow(u, l, q);
    if a.Some? && b.Some? {
      assert !(a.value < b.value) && !(b.value < a.value);
    }
  }

  /** The first roster row whose roll cell passes p, looking in the first roll column
      the roster has; None when it has none. */
  function RosterRow(roster: Table, p: Cell -> bool): (r: Option<nat>)
    requires Valid(roster)
    ensures r.Some? ==> r.value < |roster.rows|
    ensures FirstColumn(roster, RollColumns) == |RollColumns| ==> r.None?
  {
    var k := FirstColumn(roster, RollColumns);
    if k == |RollColumns| then None
    else FirstRow(roster, IndexOf(roster.columns, RollColumns[k]), p)
  }

  /** The join on trimmed strings used by the reports and the preview. */
  function SameKey(key: string): Cell -> bool {
    c => Key(c) == key
  }

  /** `pd.notna(v) and str(v).strip()` */
  predicate Accepted(v: Cell) {
    !v.Missing? && Key(v) != ""
  }

  /** The stripped value of the first candidate column whose cell in row r is accepted;
      "" when there is none. */
  function FirstAccepted(t: Table, r: nat, candidates: seq<Cell>): (s: string)
    requires Valid(t) && r < |t.rows|
    ensures s == "" <==> forall c :: c in candidates && c in t.columns ==> !Accepted(GetOr(t, r, c, Missing))
    ensures s != "" ==> exists c :: c in candidates && c in t.columns && s == Key(GetOr(t, r, c, Missing))
  {
    if candidates == [] then ""
    else
      match Get(t, r, candidates[0])
      case Some(v) => if Accepted(v) then Key(v) else FirstAccepted(t, r, candidates[1..])
      case None => FirstAccepted(t, r, candidates[1..])
  }

  /** A candidate that is not accepted is passed over. */
  lemma FirstAcceptedSkips(t: Table, r: nat, candidates: seq<Cell>)
    requires Valid(t) && r < |t.rows| && candidates != []
    requires !Accepted(GetOr(t, r, candidates[0], Missing))
    ensures FirstAccepted(t, r, candidates) == FirstAccepted(t, r, candidates[1..])
  {
    var c := candidates[0];
    if c in t.columns {
      assert Get(t, r, c) == Some(GetOr(t, r, c, Missing));
    }
  }

  /** An accepted first candidate is taken. */
  lemma FirstAcceptedTakes(t: Table, r: nat, candidates: seq<Cell>)
    requires Valid(t) && r < |t.rows| && candidates != []
    requires Accepted(GetOr(t, r, candidates[0], Missing))
    ensures FirstAccepted(t, r, candidates) == Key(GetOr(t, r, candidates[0], Missing))
  {
    assert Get(t, r, candidates[0]) == Some(GetOr(t, r, candidates[0], Missing));
  }

  /** The search from candidate k on stops at candidate i when i is accepted and none of
      k .. i - 1 is. */
  lemma {:induction false} FirstAcceptedFrom(t: Table, r: nat, candidates: seq<Cell>, k: nat, i: nat)
    requires Valid(t) && r < |t.rows| && k <= i < |candidates|
    requires Accepted(GetOr(t, r, candidates[i], Missing))
    requires forall j :: k <= j < i ==> !Accepted(GetOr(t, r, candidates[j], Missing))
    ensures FirstAccepted(t, r, candidates[k..]) == Key(GetOr(t, r, candidates[i], Missing))
    decreases i - k
  {
    var suffix := candidates[k..];
    assert suffix[0] == candidates[k];
    if k == i {
      FirstAcceptedTakes(t, r, suffix);
    } else {
      FirstAcceptedSkips(t, r, suffix);
      assert suffix[1..] == candidates[k + 1..];
      FirstAcceptedFrom(t, r, candidates, k + 1, i);
    }
  }

  /** The `break` takes the first candidate in list order: when candidate i is accepted and
      no earlier one is, the result is candidate i's stripped value. */
  lemma FirstAcceptedIsFirst(t: Table, r: nat, candidates: seq<Cell>, i: nat)
    requires Valid(t) && r < |t.rows| && i < |candidates|
    requires Accepted(GetOr(t, r, candidates[i], Missing))
    requires forall j :: 0 <= j < i ==> !Accepted(GetOr(t, r, candidates[j], Missing))
    ensures FirstAccepted(t, r, candidates) == Key(GetOr(t, r, candidates[i], Missing))
  {
    FirstAcceptedFrom(t, r, candidates, 0, i);
    assert candidates[0..] == candidates;
  }

  /** The roster's name and father's name for the roll ("" where absent). */
  function Identity(roster: Option<Table>, roll: Cell): (r: (string, string))
    requires roster.Some? ==> Valid(roster.value)
    ensures roster.None? ==> r == ("", "")
  {
    if roster.None? then ("", "")
    else
      match RosterRow(roster.value, SameKey(Key(roll)))
      case None => ("", "")
      case Some(i) => (FirstAccepted(roster.value, i, NameColumns), FirstAccepted(roster.value, i, FatherColumns))
  }

  // ---------------------------------------------------------------------------
  // Subject rows

  /** Every table is well formed and has a roll_no column, as ingestion leaves them. */
  predicate HasRolls(subjects: seq<Subject>) {
    forall j :: 0 <= j < |subjects| ==> Valid(subjects[j].val) && Text("roll_no") in subjects[j].val.columns
  }

  /** The student's row in one subject table: the first whose roll matches as str().strip(). */
  function RowFor(t: Table, key: string): (r: Option<nat>)
    requires Valid(t) && Text("roll_no") in t.columns
    ensures r.Some? ==> r.value < |t.rows| && Key(t.rows[r.value][IndexOf(t.columns, Text("roll_no"))]) == key
    ensures r.Some? ==> forall j :: 0 <= j < r.value ==> Key(t.rows[j][IndexOf(t.columns, Text("roll_no"))]) != key
    ensures r.None? ==> forall j :: 0 <= j < |t.rows| ==> Key(t.rows[j][IndexOf(t.columns, Text("roll_no"))]) != key
  {
    var k := IndexOf(t.columns, Text("roll_no"));
    var p := SameKey(key);
    assert forall j :: 0 <= j < |t.rows| ==> (p(t.rows[j][k]) <==> Key(t.rows[j][k]) == key);
    FirstRow(t, k, p)
  }

  /** The columns a subject entry copies from the student's row, in SubjectEntry order,
      each with the default `student_info.get` falls back to. */
  const EntryFields: seq<(Cell, Cell)> := [
    (Text("dt_marks"), Int(0)), (Text("st_marks"), Int(0)), (Text("at_marks"), Int(0)),
    (Text("total_marks"), Int(0)), (Text("lab_marks"), Int(0)),
    (Text("attendance_conducted"), Int(0)), (Text("attendance_present"), Int(0)),
    (Text("is_lab"), Bool(false))]

  /** `student_info.get(c, default)` for each (c, default) in turn. */
  function Fields(t: Table, r: nat, fields: seq<(Cell, Cell)>): (v: seq<Cell>)
    requires Valid(t) && r < |t.rows|
    ensures |v| == |fields|
  {
    if fields == [] then [] else [GetOr(t, r, fields[0].0, fields[0].1)] + Fields(t, r, fields[1..])
  }

  /** The entry one subject table gives for row r. */
  function EntryOf(subject: string, t: Table, r: nat): SubjectEntry
    requires Valid(t) && r < |t.rows|
  {
    var v := Fields(t, r, EntryFields);
    SubjectEntry(subject, v[0], v[1], v[2], v[3], v[4], v[5], v[6], v[7])
  }

  /** One subject table's contribution: the roll cell and the entry of the student's row,
      or None when the table does not hold the roll. */
  function Hit(s: Subject, key: string): (h: Option<(Cell, SubjectEntry)>)
    requires Valid(s.val) && Text("roll_no") in s.val.columns
    ensures h.Some? <==> RowFor(s.val, key).Some?
    ensures h.Some? ==> h.value.1 == EntryOf(s.key, s.val, RowFor(s.val, key).value)
  {
    match RowFor(s.val, key)
    case None => None
    case Some(r) => Some((s.val.rows[r][IndexOf(s.val.columns, Text("roll_no"))], EntryOf(s.key, s.val, r)))
  }

  /** The roll cell each table contributes, in store order. */
  function Rolls(subjects: seq<Subject>, key: string): (h: seq<Option<Cell>>)
    requires HasRolls(subjects)
    ensures |h| == |subjects|
    ensures forall j :: 0 <= j < |subjects| ==> (h[j].Some? <==> RowFor(subjects[j].val, key).Some?)
  {
    seq(|subjects|, j requires 0 <= j < |subjects| && HasRolls(subjects) =>
      match Hit(subjects[j], key)
      case None => None
      case Some(h) => Some(h.0))
  }

  /** The entry each table contributes, in store order. */
  function Entries(subjects: seq<Subject>, key: string): (h: seq<Option<SubjectEntry>>)
    requires HasRolls(subjects)
    ensures |h| == |subjects|
    ensures forall j :: 0 <= j < |subjects| ==>
              (h[j].Some? <==> RowFor(subjects[j].val, key).Some?) && (h[j].Some? ==> Gives(subjects, key, j, h[j].value))
  {
    seq(|subjects|, j requires 0 <= j < |subjects| && HasRolls(subjects) =>
      match Hit(subjects[j], key)
      case None => None
      case Some(h) => Some(h.1))
  }

  /** The personal information shown on the report. */
  function Info(roll: Cell, firstRoll: Cell, identity: (string, string)): PersonalInfo {
    PersonalInfo(firstRoll, if identity.0 != "" then identity.0 else "Student " + ToStr(roll), identity.1)
  }

  /** The roll cell of the first subject table holding the roll. */
  function FirstRoll(subjects: seq<Subject>, key: string): Option<Cell>
    requires HasRolls(subjects)
  {
    var rolls := Somes(Rolls(subjects, key));
    if rolls == [] then None else Some(rolls[0])
  }

  /** One entry per subject table holding the roll, in store order. */
  function SubjectsOf(subjects: seq<Subject>, key: string): seq<SubjectEntry>
    requires HasRolls(subjects)
  {
    Somes(Entries(subjects, key))
  }

  /** get_student_complete_data, as a value: personal_info from the first table holding
      the roll, then the entries of all such tables. */
  function CompleteData(roll: Cell, subjects: seq<Subject>, roster: Option<Table>): StudentData
    requires HasRolls(subjects) && (roster.Some? ==> Valid(roster.value))
  {
    var first := FirstRoll(subjects, Key(roll));
    StudentData(if first.None? then None else Some(Info(roll, first.value, Identity(roster, roll))),
                SubjectsOf(subjects, Key(roll)))
  }

  /** The loop of get_student_complete_data over the subject tables, in store order:
      personal_info is set at the first table holding the roll, and every such table
      appends its entry. */
  method CollectSubjects(roll: Cell, subjects: seq<Subject>, key: string, identity: (string, string))
    returns (info: Option<PersonalInfo>, entries: seq<SubjectEntry>)
    requires HasRolls(subjects)
    ensures info == if FirstRoll(subjects, key).None? then None else Some(Info(roll, FirstRoll(subjects, key).value, identity))
    ensures entries == SubjectsOf(subjects, key)
  {
    ghost var rolls := Rolls(subjects, key);
    ghost var all := Entries(subjects, key);
    var first: Option<Cell> := None;
    entries := [];
    SomesEnds(all);
    SomesEnds(rolls);
    for n := 0 to |subjects|
      invariant entries == Somes(all[..n])
      invariant first == if Somes(rolls[..n]) == [] then None else Some(Somes(rolls[..n])[0])
    {
      first, entries := Collect(subjects, key, n, first, entries);
    }
    info := if first.None? then None else Some(Info(roll, first.value, identity));
  }

  /** One step of the scan: the table at position n adds its entry, and its roll cell
      when no earlier table held the roll. */
  method Collect(subjects: seq<Subject>, key: string, n: nat, first: Option<Cell>, entries: seq<SubjectEntry>)
    returns (first': Option<Cell>, entries': seq<SubjectEntry>)
    requires HasRolls(subjects) && n < |subjects|
    requires entries == Somes(Entries(subjects, key)[..n])
    requires first == if Somes(Rolls(subjects, key)[..n]) == [] then None else Some(Somes(Rolls(subjects, key)[..n])[0])
    ensures entries' == Somes(Entries(subjects, key)[..n + 1])
    ensures first' == if Somes(Rolls(subjects, key)[..n + 1]) == [] then None else Some(Somes(Rolls(subjects, key)[..n + 1])[0])
  {
    ghost var rolls := Rolls(subjects, key);
    ghost var all := Entries(subjects, key);
    SomesPrefix(rolls, n);
    SomesPrefix(all, n);
    var h := Hit(subjects[n], key);
    first', entries' := first, entries;
    if h.Some? {
      if first.None? {
        first' := Some(h.value.0);
      }
      entries' := entries + [h.value.1];
    }
  }

  /** get_student_complete_data */
  method GetStudentCompleteData(roll: Cell, subjects: seq<Subject>, roster: Option<Table>) returns (d: StudentData)
    requires HasRolls(subjects) && (roster.Some? ==> Valid(roster.value))
    ensures d == CompleteData(roll, subjects, roster)
  {
    var identity := Identity(roster, roll);
    var info, entries := CollectSubjects(roll, subjects, Key(roll), identity);
    d := StudentData(info, entries);
  }

  // ---------------------------------------------------------------------------
  // Properties

  /** The entry a table gives when it holds the roll. */
  predicate Gives(subjects: seq<Subject>, key: string, j: nat, e: SubjectEntry)
    requires HasRolls(subjects) && j < |subjects|
  {
    RowFor(subjects[j].val, key).Some? && e == EntryOf(subjects[j].key, subjects[j].val, RowFor(subjects[j].val, key).value)
  }

  /** Each entry comes from a table holding the roll, read from that table's first
      matching row, and every table holding the roll gives an entry. */
  lemma EntriesFromMatchingTables(subjects: seq<Subject>, key: string, e: SubjectEntry)
    requires HasRolls(subjects)
    ensures e in SubjectsOf(subjects, key) <==> exists j :: 0 <= j < |subjects| && Gives(subjects, key, j, e)
  {
    var all := Entries(subjects, key);
    SomesMembers(all, e);
    if exists j :: 0 <= j < |subjects| && Gives(subjects, key, j, e) {
      var j :| 0 <= j < |subjects| && Gives(subjects, key, j, e);
      assert all[j] == Some(e);
    }
    if exists j :: 0 <= j < |all| && all[j] == Some(e) {
      var j :| 0 <= j < |all| && all[j] == Some(e);
      assert Gives(subjects, key, j, e);
    }
  }

  /** One entry per table holding the roll. */
  lemma OneEntryPerTable(subjects: seq<Subject>, key: string)
    requires HasRolls(subjects)
    ensures |SubjectsOf(subjects, key)| == |set j | 0 <= j < |subjects| && RowFor(subjects[j].val, key).Some?|
  {
    var all := Entries(subjects, key);
    SomesCount(all);
    assert (set j | 0 <= j < |all| && all[j].Some?) ==
           (set j | 0 <= j < |subjects| && RowFor(subjects[j].val, key).Some?);
  }

  /** A first roll (and so personal_info) exists exactly when at least one entry was found. */
  lemma InfoIffEntries(subjects: seq<Subject>, key: string)
    requires HasRolls(subjects)
    ensures FirstRoll(subjects, key).Some? <==> SubjectsOf(subjects, key) != []
  {
    SomesEmpty(Rolls(subjects, key));
    SomesEmpty(Entries(subjects, key));
  }

  /** The name and father's name depend on the roster only, never on the subject tables. */
  lemma IdentityFromRosterOnly(roll: Cell, s1: seq<Subject>, s2: seq<Subject>, roster: Option<Table>)
    requires HasRolls(s1) && HasRolls(s2) && (roster.Some? ==> Valid(roster.value))
    requires CompleteData(roll, s1, roster).info.Some? && CompleteData(roll, s2, roster).info.Some?
    ensures CompleteData(roll, s1, roster).info.value.name == CompleteData(roll, s2, roster).info.value.name
    ensures CompleteData(roll, s1, roster).info.value.father == CompleteData(roll, s2, roster).info.value.father
  {
    InfoFromIdentity(roll, s1, roster);
    InfoFromIdentity(roll, s2, roster);
  }

  /** The found student's name and father's name are read off the roster's identity. */
  lemma InfoFromIdentity(roll: Cell, subjects: seq<Subject>, roster: Option<Table>)
    requires HasRolls(subjects) && (roster.Some? ==> Valid(roster.value))
    requires CompleteData(roll, subjects, roster).info.Some?
    ensures var id := Identity(roster, roll);
            var info := CompleteData(roll, subjects, roster).info.value;
            && info.name == (if id.0 != "" then id.0 else "Student " + ToStr(roll))
            && info.father == id.1
  {
    var first := FirstRoll(subjects, Key(roll));
    assert CompleteData(roll, subjects, roster).info.value == Info(roll, first.value, Identity(roster, roll));
  }

  /** Without a roster entry the name falls back to "Student <roll>" and the father to "". */
  lemma NoRosterFallback(roll: Cell, subjects: seq<Subject>)
    requires HasRolls(subjects) && CompleteData(roll, subjects, None).info.Some?
    ensures CompleteData(roll, subjects, None).info.value.name == "Student " + ToStr(roll)
    ensures CompleteData(roll, subjects, None).info.value.father == ""
  {
    var identity := Identity(None, roll);
    assert identity == ("", "");
    var first := FirstRoll(subjects, Key(roll));
    assert CompleteData(roll, subjects, None).info.value == Info(roll, first.value, identity);
  }

  /** Padding around a roll typed as text does not change which rows it joins with. */
  lemma JoinIgnoresPadding(s: string, subjects: seq<Subject>)
    requires HasRolls(subjects)
    ensures SubjectsOf(subjects, Key(Text(s))) == SubjectsOf(subjects, Key(Text(Trim(s))))
  {
    KeyIgnoresPadding(s);
  }

  /** A roll read as an integer joins with the same roll typed as text, padded or not. */
  lemma JoinAcrossTypes(i: int, s: string, subjects: seq<Subject>)
    requires HasRolls(subjects) && Trim(s) == IntStr(i)
    ensures SubjectsOf(subjects, Key(Int(i))) == SubjectsOf(subjects, Key(Text(s)))
  {
    IntKeyMatchesText(i, s);
  }
}
