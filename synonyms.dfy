/** Properties of the synonym tables, proved from their literal contents. */
module Synonyms {
  import opened Cells
  import opened Config
  import opened Dicts
  import opened Headers
  import SynonymsLinks
  import SynonymsRollNo
  import SynonymsStudentName
  import SynonymsFatherName
  import SynonymsDtMarks
  import SynonymsStMarks
  import SynonymsAtMarks
  import SynonymsTotalMarks
  import SynonymsAttendanceConducted
  import SynonymsAttendancePresent
  import SynonymsLabMarks

  /** Each variation of COLUMN_MAPPINGS after normalize_column_name, table by table. */
  const NormalizedColumnMappings: seq<seq<string>> := [
    SynonymsRollNo.Normalized, SynonymsStudentName.Normalized, SynonymsFatherName.Normalized, SynonymsDtMarks.Normalized, SynonymsStMarks.Normalized, SynonymsAtMarks.Normalized, SynonymsTotalMarks.Normalized, SynonymsAttendanceConducted.Normalized, SynonymsAttendancePresent.Normalized, SynonymsLabMarks.Normalized
  ]

  /** normalize_column_name of the j-th variation of the i-th key. */
  lemma VariationNormalized(i: nat, j: nat)
    requires i < |ColumnMappings| && j < |ColumnMappings[i].val|
    ensures |NormalizedColumnMappings| == |ColumnMappings|
    ensures |NormalizedColumnMappings[i]| == |ColumnMappings[i].val|
    ensures NormalizeText(ColumnMappings[i].val[j]) == NormalizedColumnMappings[i][j]
    ensures NormalizedColumnMappings[i][j] != ""
  {
    if i == 0 { SynonymsLinks.RollNoNormalized(); }
    else if i == 1 { SynonymsLinks.StudentNameNormalized(); }
    else if i == 2 { SynonymsLinks.FatherNameNormalized(); }
    else if i == 3 { SynonymsLinks.DtMarksNormalized(); }
    else if i == 4 { SynonymsLinks.StMarksNormalized(); }
    else if i == 5 { SynonymsLinks.AtMarksNormalized(); }
    else if i == 6 { SynonymsLinks.TotalMarksNormalized(); }
    else if i == 7 { SynonymsLinks.AttendanceConductedNormalized(); }
    else if i == 8 { SynonymsLinks.AttendancePresentNormalized(); }
    else { SynonymsLinks.LabMarksNormalized(); }
  }

  /** No string of a is a string of b. */
  predicate Apart(a: seq<string>, b: seq<string>) {
    forall j, j' :: 0 <= j < |a| && 0 <= j' < |b| ==> a[j] != b[j']
  }

  lemma ApartRollNoStudentName() ensures Apart(SynonymsRollNo.Normalized, SynonymsStudentName.Normalized) {}
  lemma ApartRollNoFatherName() ensures Apart(SynonymsRollNo.Normalized, SynonymsFatherName.Normalized) {}
  lemma ApartRollNoDtMarks() ensures Apart(SynonymsRollNo.Normalized, SynonymsDtMarks.Normalized) {}
  lemma ApartRollNoStMarks() ensures Apart(SynonymsRollNo.Normalized, SynonymsStMarks.Normalized) {}
  lemma ApartRollNoAtMarks() ensures Apart(SynonymsRollNo.Normalized, SynonymsAtMarks.Normalized) {}
  lemma ApartRollNoTotalMarks() ensures Apart(SynonymsRollNo.Normalized, SynonymsTotalMarks.Normalized) {}
  lemma ApartRollNoAttendanceConducted() ensures Apart(SynonymsRollNo.Normalized, SynonymsAttendanceConducted.Normalized) {}
  lemma ApartRollNoAttendancePresent() ensures Apart(SynonymsRollNo.Normalized, SynonymsAttendancePresent.Normalized) {}
  lemma ApartRollNoLabMarks() ensures Apart(SynonymsRollNo.Normalized, SynonymsLabMarks.Normalized) {}
  lemma ApartStudentNameFatherName() ensures Apart(SynonymsStudentName.Normalized, SynonymsFatherName.Normalized) {}
  lemma ApartStudentNameDtMarks() ensures Apart(SynonymsStudentName.Normalized, SynonymsDtMarks.Normalized) {}
  lemma ApartStudentNameStMarks() ensures Apart(SynonymsStudentName.Normalized, SynonymsStMarks.Normalized) {}
  lemma ApartStudentNameAtMarks() ensures Apart(SynonymsStudentName.Normalized, SynonymsAtMarks.Normalized) {}
  lemma ApartStudentNameTotalMarks() ensures Apart(SynonymsStudentName.Normalized, SynonymsTotalMarks.Normalized) {}
  lemma ApartStudentNameAttendanceConducted() ensures Apart(SynonymsStudentName.Normalized, SynonymsAttendanceConducted.Normalized) {}
  lemma ApartStudentNameAttendancePresent() ensures Apart(SynonymsStudentName.Normalized, SynonymsAttendancePresent.Normalized) {}
  lemma ApartStudentNameLabMarks() ensures Apart(SynonymsStudentName.Normalized, SynonymsLabMarks.Normalized) {}
  lemma ApartFatherNameDtMarks() ensures Apart(SynonymsFatherName.Normalized, SynonymsDtMarks.Normalized) {}
  lemma ApartFatherNameStMarks() ensures Apart(SynonymsFatherName.Normalized, SynonymsStMarks.Normalized) {}
  lemma ApartFatherNameAtMarks() ensures Apart(SynonymsFatherName.Normalized, SynonymsAtMarks.Normalized) {}
  lemma ApartFatherNameTotalMarks() ensures Apart(SynonymsFatherName.Normalized, SynonymsTotalMarks.Normalized) {}
  lemma ApartFatherNameAttendanceConducted() ensures Apart(SynonymsFatherName.Normalized, SynonymsAttendanceConducted.Normalized) {}
  lemma ApartFatherNameAttendancePresent() ensures Apart(SynonymsFatherName.Normalized, SynonymsAttendancePresent.Normalized) {}
  lemma ApartFatherNameLabMarks() ensures Apart(SynonymsFatherName.Normalized, SynonymsLabMarks.Normalized) {}
  lemma ApartDtMarksStMarks() ensures Apart(SynonymsDtMarks.Normalized, SynonymsStMarks.Normalized) {}
  lemma ApartDtMarksAtMarks() ensures Apart(SynonymsDtMarks.Normalized, SynonymsAtMarks.Normalized) {}
  lemma ApartDtMarksTotalMarks() ensures Apart(SynonymsDtMarks.Normalized, SynonymsTotalMarks.Normalized) {}
  lemma ApartDtMarksAttendanceConducted() ensures Apart(SynonymsDtMarks.Normalized, SynonymsAttendanceConducted.Normalized) {}
  lemma ApartDtMarksAttendancePresent() ensures Apart(SynonymsDtMarks.Normalized, SynonymsAttendancePresent.Normalized) {}
  lemma ApartDtMarksLabMarks() ensures Apart(SynonymsDtMarks.Normalized, SynonymsLabMarks.Normalized) {}
  lemma ApartStMarksAtMarks() ensures Apart(SynonymsStMarks.Normalized, SynonymsAtMarks.Normalized) {}
  lemma ApartStMarksTotalMarks() ensures Apart(SynonymsStMarks.Normalized, SynonymsTotalMarks.Normalized) {}
  lemma ApartStMarksAttendanceConducted() ensures Apart(SynonymsStMarks.Normalized, SynonymsAttendanceConducted.Normalized) {}
  lemma ApartStMarksAttendancePresent() ensures Apart(SynonymsStMarks.Normalized, SynonymsAttendancePresent.Normalized) {}
  lemma ApartStMarksLabMarks() ensures Apart(SynonymsStMarks.Normalized, SynonymsLabMarks.Normalized) {}
  lemma ApartAtMarksTotalMarks() ensures Apart(SynonymsAtMarks.Normalized, SynonymsTotalMarks.Normalized) {}
  lemma ApartAtMarksAttendanceConducted() ensures Apart(SynonymsAtMarks.Normalized, SynonymsAttendanceConducted.Normalized) {}
  lemma ApartAtMarksAttendancePresent() ensures Apart(SynonymsAtMarks.Normalized, SynonymsAttendancePresent.Normalized) {}
  lemma ApartAtMarksLabMarks() ensures Apart(SynonymsAtMarks.Normalized, SynonymsLabMarks.Normalized) {}
  lemma ApartTotalMarksAttendanceConducted() ensures Apart(SynonymsTotalMarks.Normalized, SynonymsAttendanceConducted.Normalized) {}
  lemma ApartTotalMarksAttendancePresent() ensures Apart(SynonymsTotalMarks.Normalized, SynonymsAttendancePresent.Normalized) {}
  lemma ApartTotalMarksLabMarks() ensures Apart(SynonymsTotalMarks.Normalized, SynonymsLabMarks.Normalized) {}
  lemma ApartAttendanceConductedAttendancePresent() ensures Apart(SynonymsAttendanceConducted.Normalized, SynonymsAttendancePresent.Normalized) {}
  lemma ApartAttendanceConductedLabMarks() ensures Apart(SynonymsAttendanceConducted.Normalized, SynonymsLabMarks.Normalized) {}
  lemma ApartAttendancePresentLabMarks() ensures Apart(SynonymsAttendancePresent.Normalized, SynonymsLabMarks.Normalized) {}

  lemma NormalizedDisjoint()
    ensures forall i, i' :: 0 <= i < i' < |NormalizedColumnMappings| ==>
              Apart(NormalizedColumnMappings[i], NormalizedColumnMappings[i'])
  {
    ApartRollNoStudentName(); ApartRollNoFatherName(); ApartRollNoDtMarks(); ApartRollNoStMarks();
    ApartRollNoAtMarks(); ApartRollNoTotalMarks(); ApartRollNoAttendanceConducted(); ApartRollNoAttendancePresent();
    ApartRollNoLabMarks(); ApartStudentNameFatherName(); ApartStudentNameDtMarks(); ApartStudentNameStMarks();
    ApartStudentNameAtMarks(); ApartStudentNameTotalMarks(); ApartStudentNameAttendanceConducted(); ApartStudentNameAttendancePresent();
    ApartStudentNameLabMarks(); ApartFatherNameDtMarks(); ApartFatherNameStMarks(); ApartFatherNameAtMarks();
    ApartFatherNameTotalMarks(); ApartFatherNameAttendanceConducted(); ApartFatherNameAttendancePresent(); ApartFatherNameLabMarks();
    ApartDtMarksStMarks(); ApartDtMarksAtMarks(); ApartDtMarksTotalMarks(); ApartDtMarksAttendanceConducted();
    ApartDtMarksAttendancePresent(); ApartDtMarksLabMarks(); ApartStMarksAtMarks(); ApartStMarksTotalMarks();
    ApartStMarksAttendanceConducted(); ApartStMarksAttendancePresent(); ApartStMarksLabMarks(); ApartAtMarksTotalMarks();
    ApartAtMarksAttendanceConducted(); ApartAtMarksAttendancePresent(); ApartAtMarksLabMarks(); ApartTotalMarksAttendanceConducted();
    ApartTotalMarksAttendancePresent(); ApartTotalMarksLabMarks(); ApartAttendanceConductedAttendancePresent(); ApartAttendanceConductedLabMarks();
    ApartAttendancePresentLabMarks();
  }

  // ---------------------------------------------------------------------------
  // What the table promises to the lookup

  lemma TenCanonicalKeys()
    ensures KeysOf(ColumnMappings) == [
              "roll_no", "student_name", "father_name", "dt_marks", "st_marks", "at_marks",
              "total_marks", "attendance_conducted", "attendance_present", "lab_marks"]
  {
  }

  lemma KeysApart(i: nat, i': nat)
    requires i < i' < |NormalizedColumnMappings|
    ensures Apart(NormalizedColumnMappings[i], NormalizedColumnMappings[i'])
  {
    NormalizedDisjoint();
  }

  /** Because the normalised variation sets are disjoint, a header listed under key i
      maps to key i whatever the order of the table. */
  lemma LookupFindsOwner(n: string, i: nat)
    requires i < |ColumnMappings| && Listed(n, ColumnMappings[i].val)
    ensures Lookup(n, ColumnMappings) == Some(ColumnMappings[i].key)
  {
    var r := Lookup(n, ColumnMappings);
    var i0 :| && 0 <= i0 < |ColumnMappings| && ColumnMappings[i0].key == r.value
              && Listed(n, ColumnMappings[i0].val)
              && forall i' :: 0 <= i' < i0 ==> !Listed(n, ColumnMappings[i'].val);
    if i0 != i {
      var j0 :| 0 <= j0 < |ColumnMappings[i0].val| && NormalizeText(ColumnMappings[i0].val[j0]) == n;
      var j :| 0 <= j < |ColumnMappings[i].val| && NormalizeText(ColumnMappings[i].val[j]) == n;
      VariationNormalized(i0, j0);
      VariationNormalized(i, j);
      KeysApart(i0, i);
      assert false;
    }
  }

  /** Where each canonical key sits among its own variations. */
  const KeyPositions: seq<nat> := [5, 7, 7, 7, 7, 7, 7, 6, 6, 2]

  lemma KeyAmongVariations(i: nat)
    requires i < |ColumnMappings|
    ensures KeyPositions[i] < |ColumnMappings[i].val|
    ensures ColumnMappings[i].val[KeyPositions[i]] == ColumnMappings[i].key
  {
  }

  /** Every canonical key is one of its own variations, so a canonical header maps to itself. */
  lemma CanonicalMapsToItself(i: nat)
    requires i < |ColumnMappings|
    ensures MapColumnName(Text(ColumnMappings[i].key)) == Text(ColumnMappings[i].key)
  {
    KeyAmongVariations(i);
    LookupFindsOwner(NormalizeText(ColumnMappings[i].key), i);
  }

  /** Mapping a header twice gives what mapping it once gives. */
  lemma MapIdempotent(h: Cell)
    ensures MapColumnName(MapColumnName(h)) == MapColumnName(h)
  {
    var r := MapColumnName(h);
    if r != h {
      var i :| 0 <= i < |ColumnMappings| && r == Text(ColumnMappings[i].key);
      CanonicalMapsToItself(i);
    }
  }

  /** Headers with equal normalisations are renamed alike. */
  lemma EqualNormalizationMapsAlike(h1: Cell, h2: Cell)
    requires Normalize(h1) == Normalize(h2)
    ensures MapColumnName(h1) == MapColumnName(h2)
            || (MapColumnName(h1) == h1 && MapColumnName(h2) == h2)
  {
  }

  /** No variation normalises to "", so a header that is not a string is never renamed. */
  lemma NonTextHeaderUnchanged(h: Cell)
    requires !h.Text?
    ensures MapColumnName(h) == h
  {
    forall i | 0 <= i < |ColumnMappings|
      ensures !Listed("", ColumnMappings[i].val)
    {
      forall j | 0 <= j < |ColumnMappings[i].val|
        ensures NormalizeText(ColumnMappings[i].val[j]) != ""
      {
        VariationNormalized(i, j);
      }
    }
  }

  /** A header that normalises like one of key i's variations is renamed to key i. */
  lemma VariationMapsToKey(h: string, i: nat, k: nat)
    requires i < |ColumnMappings| && k < |ColumnMappings[i].val|
    requires NormalizeText(ColumnMappings[i].val[k]) == NormalizeText(h)
    ensures MapColumnName(Text(h)) == Text(ColumnMappings[i].key)
  {
    LookupFindsOwner(NormalizeText(h), i);
  }

  /** The single-word headers "id", "total", "present" and "marks". */
  lemma IdIsRollNo()
    ensures MapColumnName(Text("id")) == Text("roll_no")
  {
    VariationMapsToKey("id", 0, 4);
  }

  lemma TotalIsTotalMarks()
    ensures MapColumnName(Text("total")) == Text("total_marks")
  {
    VariationMapsToKey("total", 6, 2);
  }

  lemma PresentIsAttendancePresent()
    ensures MapColumnName(Text("present")) == Text("attendance_present")
  {
    VariationMapsToKey("present", 8, 5);
  }

  lemma MarksIsLabMarks()
    ensures MapColumnName(Text("marks")) == Text("lab_marks")
  {
    VariationMapsToKey("marks", 9, 6);
  }

  /** Spellings of the roll-number header that differ in case and separators. */
  lemma RollNoSpellings()
    ensures Normalize(Text("Roll No")) == "rollno"
    ensures Normalize(Text("roll_no")) == "rollno"
    ensures Normalize(Text(" ROLL-NO ")) == "rollno"
  {
    NormalizesToSound("Roll No", "rollno");
    NormalizesToSound("roll_no", "rollno");
    NormalizesToSound(" ROLL-NO ", "rollno");
  }

  lemma PaddedUpperRollNo()
    ensures MapColumnName(Text(" ROLL-NO ")) == Text("roll_no")
  {
    NormalizesToSound(" ROLL-NO ", "rollno");
    VariationNormalized(0, 1);
    VariationMapsToKey(" ROLL-NO ", 0, 1);
  }

  // ---------------------------------------------------------------------------
  // BACKLOG_COLUMN_MAPPINGS

  lemma BacklogKeys()
    ensures KeysOf(BacklogColumnMappings) == [
              "roll_no", "student_name", "father_name",
              "sem 1", "sem 2", "sem 3", "sem 4", "sem 5", "sem 6", "sem 7", "sem 8"]
  {
  }

  /** Each semester key "sem N" is the first of its own variations. */
  lemma SemesterKeysListed(i: nat)
    requires 3 <= i < |BacklogColumnMappings|
    ensures BacklogColumnMappings[i].val[0] == BacklogColumnMappings[i].key
  {
  }

  /** The roster's roll-number spellings are the subject ones plus "htno", which
      normalises like "ht no"; so both lists accept the same headers. */
  lemma BacklogRollNoSameAsSubject(n: string)
    ensures BacklogColumnMappings[0].val == ColumnMappings[0].val + ["htno"]
    ensures Listed(n, BacklogColumnMappings[0].val) <==> Listed(n, ColumnMappings[0].val)
  {
    var b, c := BacklogColumnMappings[0].val, ColumnMappings[0].val;
    assert b == c + ["htno"];
    NormalizesToSound("htno", "htno");
    NormalizesToSound("ht no", "htno");
    assert c[13] == "ht no";
    if Listed(n, b) {
      var k :| 0 <= k < |b| && NormalizeText(b[k]) == n;
      if k == |c| {
        assert NormalizeText(c[13]) == n;
      } else {
        assert b[k] == c[k];
      }
    }
    if Listed(n, c) {
      var k :| 0 <= k < |c| && NormalizeText(c[k]) == n;
      assert b[k] == c[k];
    }
  }
}
