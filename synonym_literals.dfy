// The normalised form of every COLUMN_MAPPINGS variation, evaluated one key at a time;
// one small module per key keeps each proof cheap.

module SynonymsRollNo {
  import opened Headers

  /** The variations of "roll_no" after normalize_column_name. */
  const Normalized: seq<string> := ["rollno", "rollno", "rollnumber", "studentid", "id", "rollno", "rollno", "roll", "studentid", "registrationno", "regno", "enrollmentno", "enrollno", "htno", "hallticketno"]

  lemma ScannedRollNo0(s: string, t: string)
    requires s == "roll no" && t == "rollno"
    ensures NormalizesTo(s, 0, t, 0)
  {
    assert NormalizesTo(s, 6, t, 5); assert NormalizesTo(s, 4, t, 4); assert NormalizesTo(s, 3, t, 3);
  }
  lemma NormalizedRollNo0() ensures NormalizeText("roll no") == "rollno" {
    ScannedRollNo0("roll no", "rollno");
    NormalizesToSound("roll no", "rollno");
  }
  lemma ScannedRollNo1(s: string, t: string)
    requires s == "rollno" && t == "rollno"
    ensures NormalizesTo(s, 0, t, 0)
  {
    assert NormalizesTo(s, 5, t, 5); assert NormalizesTo(s, 3, t, 3);
  }
  lemma NormalizedRollNo1() ensures NormalizeText("rollno") == "rollno" {
    ScannedRollNo1("rollno", "rollno");
    NormalizesToSound("rollno", "rollno");
  }
  lemma ScannedRollNo2(s: string, t: string)
    requires s == "roll number" && t == "rollnumber"
    ensures NormalizesTo(s, 0, t, 0)
  {
    assert NormalizesTo(s, 10, t, 9); assert NormalizesTo(s, 7, t, 6); assert NormalizesTo(s, 4, t, 4); assert NormalizesTo(s, 3, t, 3);
  }
  lemma NormalizedRollNo2() ensures NormalizeText("roll number") == "rollnumber" {
    ScannedRollNo2("roll number", "rollnumber");
    NormalizesToSound("roll number", "rollnumber");
  }
  lemma ScannedRollNo3(s: string, t: string)
    requires s == "student id" && t == "studentid"
    ensures NormalizesTo(s, 0, t, 0)
  {
    assert NormalizesTo(s, 9, t, 8); assert NormalizesTo(s, 7, t, 7); assert NormalizesTo(s, 6, t, 6); assert NormalizesTo(s, 3, t, 3);
  }
  lemma NormalizedRollNo3() ensures NormalizeText("student id") == "studentid" {
    ScannedRollNo3("student id", "studentid");
    NormalizesToSound("student id", "studentid");
  }
  lemma ScannedRollNo4(s: string, t: string)
    requires s == "id" && t == "id"
    ensures NormalizesTo(s, 0, t, 0)
  {
    assert NormalizesTo(s, 1, t, 1);
  }
  lemma NormalizedRollNo4() ensures NormalizeText("id") == "id" {
    ScannedRollNo4("id", "id");
    NormalizesToSound("id", "id");
  }
  lemma ScannedRollNo5(s: string, t: string)
    requires s == "roll_no" && t == "rollno"
    ensures NormalizesTo(s, 0, t, 0)
  {
    assert NormalizesTo(s, 6, t, 5); assert NormalizesTo(s, 4, t, 4); assert NormalizesTo(s, 3, t, 3);
  }
  lemma NormalizedRollNo5() ensures NormalizeText("roll_no") == "rollno" {
    ScannedRollNo5("roll_no", "rollno");
    NormalizesToSound("roll_no", "rollno");
  }
  lemma ScannedRollNo6(s: string, t: string)
    requires s == "roll_no." && t == "rollno"
    ensures NormalizesTo(s, 0, t, 0)
  {
    assert NormalizesTo(s, 7, t, 6); assert NormalizesTo(s, 4, t, 4); assert NormalizesTo(s, 3, t, 3);
  }
  lemma NormalizedRollNo6() ensures NormalizeText("roll_no.") == "rollno" {
    ScannedRollNo6("roll_no.", "rollno");
    NormalizesToSound("roll_no.", "rollno");
  }
  lemma ScannedRollNo7(s: string, t: string)
    requires s == "roll" && t == "roll"
    ensures NormalizesTo(s, 0, t, 0)
  {
    assert NormalizesTo(s, 3, t, 3);
  }
  lemma NormalizedRollNo7() ensures NormalizeText("roll") == "roll" {
    ScannedRollNo7("roll", "roll");
    NormalizesToSound("roll", "roll");
  }
  lemma ScannedRollNo8(s: string, t: string)
    requires s == "student_id" && t == "studentid"
    ensures NormalizesTo(s, 0, t, 0)
  {
    assert NormalizesTo(s, 9, t, 8); assert NormalizesTo(s, 7, t, 7); assert NormalizesTo(s, 6, t, 6); assert NormalizesTo(s, 3, t, 3);
  }
  lemma NormalizedRollNo8() ensures NormalizeText("student_id") == "studentid" {
    ScannedRollNo8("student_id", "studentid");
    NormalizesToSound("student_id", "studentid");
  }
  lemma ScannedRollNo9(s: string, t: string)
    requires s == "registration no" && t == "registrationno"
    ensures NormalizesTo(s, 0, t, 0)
  {
    assert NormalizesTo(s, 14, t, 13); assert NormalizesTo(s, 12, t, 12); assert NormalizesTo(s, 9, t, 9); assert NormalizesTo(s, 6, t, 6); assert NormalizesTo(s, 3, t, 3);
  }
  lemma NormalizedRollNo9() ensures NormalizeText("registration no") == "registrationno" {
    ScannedRollNo9("registration no", "registrationno");
    NormalizesToSound("registration no", "registrationno");
  }
  lemma ScannedRollNo10(s: string, t: string)
    requires s == "reg no" && t == "regno"
    ensures NormalizesTo(s, 0, t, 0)
  {
    assert NormalizesTo(s, 5, t, 4); assert NormalizesTo(s, 3, t, 3);
  }
  lemma NormalizedRollNo10() ensures NormalizeText("reg no") == "regno" {
    ScannedRollNo10("reg no", "regno");
    NormalizesToSound("reg no", "regno");
  }
  lemma ScannedRollNo11(s: string, t: string)
    requires s == "enrollment no" && t == "enrollmentno"
    ensures NormalizesTo(s, 0, t, 0)
  {
    assert NormalizesTo(s, 12, t, 11); assert NormalizesTo(s, 10, t, 10); assert NormalizesTo(s, 9, t, 9); assert NormalizesTo(s, 6, t, 6); assert NormalizesTo(s, 3, t, 3);
  }
  lemma NormalizedRollNo11() ensures NormalizeText("enrollment no") == "enrollmentno" {
    ScannedRollNo11("enrollment no", "enrollmentno");
    NormalizesToSound("enrollment no", "enrollmentno");
  }
  lemma ScannedRollNo12(s: string, t: string)
    requires s == "enroll no" && t == "enrollno"
    ensures NormalizesTo(s, 0, t, 0)
  {
    assert NormalizesTo(s, 8, t, 7); assert NormalizesTo(s, 6, t, 6); assert NormalizesTo(s, 3, t, 3);
  }
  lemma NormalizedRollNo12() ensures NormalizeText("enroll no") == "enrollno" {
    ScannedRollNo12("enroll no", "enrollno");
    NormalizesToSound("enroll no", "enrollno");
  }
  lemma ScannedRollNo13(s: string, t: string)
    requires s == "ht no" && t == "htno"
    ensures NormalizesTo(s, 0, t, 0)
  {
    assert NormalizesTo(s, 4, t, 3); assert NormalizesTo(s, 2, t, 2);
  }
  lemma NormalizedRollNo13() ensures NormalizeText("ht no") == "htno" {
    ScannedRollNo13("ht no", "htno");
    NormalizesToSound("ht no", "htno");
  }
  lemma ScannedRollNo14(s: string, t: string)
    requires s == "hall ticket no" && t == "hallticketno"
    ensures NormalizesTo(s, 0, t, 0)
  {
    assert NormalizesTo(s, 13, t, 11); assert NormalizesTo(s, 11, t, 10); assert NormalizesTo(s, 10, t, 9); assert NormalizesTo(s, 7, t, 6); assert NormalizesTo(s, 4, t, 4); assert NormalizesTo(s, 3, t, 3);
  }
  lemma NormalizedRollNo14() ensures NormalizeText("hall ticket no") == "hallticketno" {
    ScannedRollNo14("hall ticket no", "hallticketno");
    NormalizesToSound("hall ticket no", "hallticketno");
  }
}

module SynonymsStudentName {
  import opened Headers

  /** The variations of "student_name" after normalize_column_name. */
  const Normalized: seq<string> := ["studentname", "name", "fullname", "studentname", "nameofstudent", "candidatename", "student", "studentname", "pupilname"]

  lemma ScannedStudentName0(s: string, t: string)
    requires s == "student name" && t == "studentname"
    ensures NormalizesTo(s, 0, t, 0)
  {
    assert NormalizesTo(s, 11, t, 10); assert NormalizesTo(s, 10, t, 9); assert NormalizesTo(s, 7, t, 7); assert NormalizesTo(s, 6, t, 6); assert NormalizesTo(s, 3, t, 3);
  }
  lemma NormalizedStudentName0() ensures NormalizeText("student name") == "studentname" {
    ScannedStudentName0("student name", "studentname");
    NormalizesToSound("student name", "studentname");
  }
  lemma ScannedStudentName1(s: string, t: string)
    requires s == "name" && t == "name"
    ensures NormalizesTo(s, 0, t, 0)
  {
    assert NormalizesTo(s, 3, t, 3);
  }
  lemma NormalizedStudentName1() ensures NormalizeText("name") == "name" {
    ScannedStudentName1("name", "name");
    NormalizesToSound("name", "name");
  }
  lemma ScannedStudentName2(s: string, t: string)
    requires s == "full name" && t == "fullname"
    ensures NormalizesTo(s, 0, t, 0)
  {
    assert NormalizesTo(s, 8, t, 7); assert NormalizesTo(s, 7, t, 6); assert NormalizesTo(s, 4, t, 4); assert NormalizesTo(s, 3, t, 3);
  }
  lemma NormalizedStudentName2() ensures NormalizeText("full name") == "fullname" {
    ScannedStudentName2("full name", "fullname");
    NormalizesToSound("full name", "fullname");
  }
  lemma ScannedStudentName3(s: string, t: string)
    requires s == "studentname" && t == "studentname"
    ensures NormalizesTo(s, 0, t, 0)
  {
    assert NormalizesTo(s, 10, t, 10); assert NormalizesTo(s, 9, t, 9); assert NormalizesTo(s, 6, t, 6); assert NormalizesTo(s, 3, t, 3);
  }
  lemma NormalizedStudentName3() ensures NormalizeText("studentname") == "studentname" {
    ScannedStudentName3("studentname", "studentname");
    NormalizesToSound("studentname", "studentname");
  }
  lemma ScannedStudentName4(s: string, t: string)
    requires s == "name of student" && t == "nameofstudent"
    ensures NormalizesTo(s, 0, t, 0)
  {
    assert NormalizesTo(s, 14, t, 12); assert NormalizesTo(s, 13, t, 11); assert NormalizesTo(s, 10, t, 8); assert NormalizesTo(s, 7, t, 6); assert NormalizesTo(s, 4, t, 4); assert NormalizesTo(s, 3, t, 3);
  }
  lemma NormalizedStudentName4() ensures NormalizeText("name of student") == "nameofstudent" {
    ScannedStudentName4("name of student", "nameofstudent");
    NormalizesToSound("name of student", "nameofstudent");
  }
  lemma ScannedStudentName5(s: string, t: string)
    requires s == "candidate name" && t == "candidatename"
    ensures NormalizesTo(s, 0, t, 0)
  {
    assert NormalizesTo(s, 13, t, 12); assert NormalizesTo(s, 12, t, 11); assert NormalizesTo(s, 9, t, 9); assert NormalizesTo(s, 6, t, 6); assert NormalizesTo(s, 3, t, 3);
  }
  lemma NormalizedStudentName5() ensures NormalizeText("candidate name") == "candidatename" {
    ScannedStudentName5("candidate name", "candidatename");
    NormalizesToSound("candidate name", "candidatename");
  }
  lemma ScannedStudentName6(s: string, t: string)
    requires s == "student" && t == "student"
    ensures NormalizesTo(s, 0, t, 0)
  {
    assert NormalizesTo(s, 6, t, 6); assert NormalizesTo(s, 3, t, 3);
  }
  lemma NormalizedStudentName6() ensures NormalizeText("student") == "student" {
    ScannedStudentName6("student", "student");
    NormalizesToSound("student", "student");
  }
  lemma ScannedStudentName7(s: string, t: string)
    requires s == "student_name" && t == "studentname"
    ensures NormalizesTo(s, 0, t, 0)
  {
    assert NormalizesTo(s, 11, t, 10); assert NormalizesTo(s, 10, t, 9); assert NormalizesTo(s, 7, t, 7); assert NormalizesTo(s, 6, t, 6); assert NormalizesTo(s, 3, t, 3);
  }
  lemma NormalizedStudentName7() ensures NormalizeText("student_name") == "studentname" {
    ScannedStudentName7("student_name", "studentname");
    NormalizesToSound("student_name", "studentname");
  }
  lemma ScannedStudentName8(s: string, t: string)
    requires s == "pupil name" && t == "pupilname"
    ensures NormalizesTo(s, 0, t, 0)
  {
    assert NormalizesTo(s, 9, t, 8); assert NormalizesTo(s, 8, t, 7); assert NormalizesTo(s, 5, t, 5); assert NormalizesTo(s, 3, t, 3);
  }
  lemma NormalizedStudentName8() ensures NormalizeText("pupil name") == "pupilname" {
    ScannedStudentName8("pupil name", "pupilname");
    NormalizesToSound("pupil name", "pupilname");
  }
}

module SynonymsFatherName {
  import opened Headers

  /** The variations of "father_name" after normalize_column_name. */
  const Normalized: seq<string> := ["fathername", "fathername", "parentname", "guardianname", "father'sname", "parent'sname", "father", "fathername", "parent", "guardian"]

  lemma ScannedFatherName0(s: string, t: string)
    requires s == "father name" && t == "fathername"
    ensures NormalizesTo(s, 0, t, 0)
  {
    assert NormalizesTo(s, 10, t, 9); assert NormalizesTo(s, 9, t, 8); assert NormalizesTo(s, 6, t, 6); assert NormalizesTo(s, 3, t, 3);
  }
  lemma NormalizedFatherName0() ensures NormalizeText("father name") == "fathername" {
    ScannedFatherName0("father name", "fathername");
    NormalizesToSound("father name", "fathername");
  }
  lemma ScannedFatherName1(s: string, t: string)
    requires s == "fathername" && t == "fathername"
    ensures NormalizesTo(s, 0, t, 0)
  {
    assert NormalizesTo(s, 9, t, 9); assert NormalizesTo(s, 6, t, 6); assert NormalizesTo(s, 3, t, 3);
  }
  lemma NormalizedFatherName1() ensures NormalizeText("fathername") == "fathername" {
    ScannedFatherName1("fathername", "fathername");
    NormalizesToSound("fathername", "fathername");
  }
  lemma ScannedFatherName2(s: string, t: string)
    requires s == "parent name" && t == "parentname"
    ensures NormalizesTo(s, 0, t, 0)
  {
    assert NormalizesTo(s, 10, t, 9); assert NormalizesTo(s, 9, t, 8); assert NormalizesTo(s, 6, t, 6); assert NormalizesTo(s, 3, t, 3);
  }
  lemma NormalizedFatherName2() ensures NormalizeText("parent name") == "parentname" {
    ScannedFatherName2("parent name", "parentname");
    NormalizesToSound("parent name", "parentname");
  }
  lemma ScannedFatherName3(s: string, t: string)
    requires s == "guardian name" && t == "guardianname"
    ensures NormalizesTo(s, 0, t, 0)
  {
    assert NormalizesTo(s, 12, t, 11); assert NormalizesTo(s, 11, t, 10); assert NormalizesTo(s, 8, t, 8); assert NormalizesTo(s, 6, t, 6); assert NormalizesTo(s, 3, t, 3);
  }
  lemma NormalizedFatherName3() ensures NormalizeText("guardian name") == "guardianname" {
    ScannedFatherName3("guardian name", "guardianname");
    NormalizesToSound("guardian name", "guardianname");
  }
  lemma ScannedFatherName4(s: string, t: string)
    requires s == "father's name" && t == "father'sname"
    ensures NormalizesTo(s, 0, t, 0)
  {
    assert NormalizesTo(s, 12, t, 11); assert NormalizesTo(s, 11, t, 10); assert NormalizesTo(s, 8, t, 8); assert NormalizesTo(s, 6, t, 6); assert NormalizesTo(s, 3, t, 3);
  }
  lemma NormalizedFatherName4() ensures NormalizeText("father's name") == "father'sname" {
    ScannedFatherName4("father's name", "father'sname");
    NormalizesToSound("father's name", "father'sname");
  }
  lemma ScannedFatherName5(s: string, t: string)
    requires s == "parent's name" && t == "parent'sname"
    ensures NormalizesTo(s, 0, t, 0)
  {
    assert NormalizesTo(s, 12, t, 11); assert NormalizesTo(s, 11, t, 10); assert NormalizesTo(s, 8, t, 8); assert NormalizesTo(s, 6, t, 6); assert NormalizesTo(s, 3, t, 3);
  }
  lemma NormalizedFatherName5() ensures NormalizeText("parent's name") == "parent'sname" {
    ScannedFatherName5("parent's name", "parent'sname");
    NormalizesToSound("parent's name", "parent'sname");
  }
  lemma ScannedFatherName6(s: string, t: string)
    requires s == "father" && t == "father"
    ensures NormalizesTo(s, 0, t, 0)
  {
    assert NormalizesTo(s, 5, t, 5); assert NormalizesTo(s, 3, t, 3);
  }
  lemma NormalizedFatherName6() ensures NormalizeText("father") == "father" {
    ScannedFatherName6("father", "father");
    NormalizesToSound("father", "father");
  }
  lemma ScannedFatherName7(s: string, t: string)
    requires s == "father_name" && t == "fathername"
    ensures NormalizesTo(s, 0, t, 0)
  {
    assert NormalizesTo(s, 10, t, 9); assert NormalizesTo(s, 9, t, 8); assert NormalizesTo(s, 6, t, 6); assert NormalizesTo(s, 3, t, 3);
  }
  lemma NormalizedFatherName7() ensures NormalizeText("father_name") == "fathername" {
    ScannedFatherName7("father_name", "fathername");
    NormalizesToSound("father_name", "fathername");
  }
  lemma ScannedFatherName8(s: string, t: string)
    requires s == "parent" && t == "parent"
    ensures NormalizesTo(s, 0, t, 0)
  {
    assert NormalizesTo(s, 5, t, 5); assert NormalizesTo(s, 3, t, 3);
  }
  lemma NormalizedFatherName8() ensures NormalizeText("parent") == "parent" {
    ScannedFatherName8("parent", "parent");
    NormalizesToSound("parent", "parent");
  }
  lemma ScannedFatherName9(s: string, t: string)
    requires s == "guardian" && t == "guardian"
    ensures NormalizesTo(s, 0, t, 0)
  {
    assert NormalizesTo(s, 7, t, 7); assert NormalizesTo(s, 6, t, 6); assert NormalizesTo(s, 3, t, 3);
  }
  lemma NormalizedFatherName9() ensures NormalizeText("guardian") == "guardian" {
    ScannedFatherName9("guardian", "guardian");
    NormalizesToSound("guardian", "guardian");
  }
}

module SynonymsDtMarks {
  import opened Headers

  /** The variations of "dt_marks" after normalize_column_name. */
  const Normalized: seq<string> := ["dtmarks", "descriptivetest", "dtmarks", "descriptivemarks", "dt", "testmarks", "descriptive", "dtmarks", "midmarks", "midterm"]

  lemma ScannedDtMarks0(s: string, t: string)
    requires s == "dt marks" && t == "dtmarks"
    ensures NormalizesTo(s, 0, t, 0)
  {
    assert NormalizesTo(s, 7, t, 6); assert NormalizesTo(s, 5, t, 4); assert NormalizesTo(s, 2, t, 2);
  }
  lemma NormalizedDtMarks0() ensures NormalizeText("dt marks") == "dtmarks" {
    ScannedDtMarks0("dt marks", "dtmarks");
    NormalizesToSound("dt marks", "dtmarks");
  }
  lemma ScannedDtMarks1(s: string, t: string)
    requires s == "descriptive test" && t == "descriptivetest"
    ensures NormalizesTo(s, 0, t, 0)
  {
    assert NormalizesTo(s, 15, t, 14); assert NormalizesTo(s, 14, t, 13); assert NormalizesTo(s, 11, t, 11); assert NormalizesTo(s, 9, t, 9); assert NormalizesTo(s, 6, t, 6); assert NormalizesTo(s, 3, t, 3);
  }
  lemma NormalizedDtMarks1() ensures NormalizeText("descriptive test") == "descriptivetest" {
    ScannedDtMarks1("descriptive test", "descriptivetest");
    NormalizesToSound("descriptive test", "descriptivetest");
  }
  lemma ScannedDtMarks2(s: string, t: string)
    requires s == "dtmarks" && t == "dtmarks"
    ensures NormalizesTo(s, 0, t, 0)
  {
    assert NormalizesTo(s, 6, t, 6); assert NormalizesTo(s, 3, t, 3);
  }
  lemma NormalizedDtMarks2() ensures NormalizeText("dtmarks") == "dtmarks" {
    ScannedDtMarks2("dtmarks", "dtmarks");
    NormalizesToSound("dtmarks", "dtmarks");
  }
  lemma ScannedDtMarks3(s: string, t: string)
    requires s == "descriptive marks" && t == "descriptivemarks"
    ensures NormalizesTo(s, 0, t, 0)
  {
    assert NormalizesTo(s, 16, t, 15); assert NormalizesTo(s, 14, t, 13); assert NormalizesTo(s, 11, t, 11); assert NormalizesTo(s, 9, t, 9); assert NormalizesTo(s, 6, t, 6); assert NormalizesTo(s, 3, t, 3);
  }
  lemma NormalizedDtMarks3() ensures NormalizeText("descriptive marks") == "descriptivemarks" {
    ScannedDtMarks3("descriptive marks", "descriptivemarks");
    NormalizesToSound("descriptive marks", "descriptivemarks");
  }
  lemma ScannedDtMarks4(s: string, t: string)
    requires s == "dt" && t == "dt"
    ensures NormalizesTo(s, 0, t, 0)
  {
    assert NormalizesTo(s, 1, t, 1);
  }
  lemma NormalizedDtMarks4() ensures NormalizeText("dt") == "dt" {
    ScannedDtMarks4("dt", "dt");
    NormalizesToSound("dt", "dt");
  }
  lemma ScannedDtMarks5(s: string, t: string)
    requires s == "test marks" && t == "testmarks"
    ensures NormalizesTo(s, 0, t, 0)
  {
    assert NormalizesTo(s, 9, t, 8); assert NormalizesTo(s, 7, t, 6); assert NormalizesTo(s, 4, t, 4); assert NormalizesTo(s, 3, t, 3);
  }
  lemma NormalizedDtMarks5() ensures NormalizeText("test marks") == "testmarks" {
    ScannedDtMarks5("test marks", "testmarks");
    NormalizesToSound("test marks", "testmarks");
  }
  lemma ScannedDtMarks6(s: string, t: string)
    requires s == "descriptive" && t == "descriptive"
    ensures NormalizesTo(s, 0, t, 0)
  {
    assert NormalizesTo(s, 10, t, 10); assert NormalizesTo(s, 9, t, 9); assert NormalizesTo(s, 6, t, 6); assert NormalizesTo(s, 3, t, 3);
  }
  lemma NormalizedDtMarks6() ensures NormalizeText("descriptive") == "descriptive" {
    ScannedDtMarks6("descriptive", "descriptive");
    NormalizesToSound("descriptive", "descriptive");
  }
  lemma ScannedDtMarks7(s: string, t: string)
    requires s == "dt_marks" && t == "dtmarks"
    ensures NormalizesTo(s, 0, t, 0)
  {
    assert NormalizesTo(s, 7, t, 6); assert NormalizesTo(s, 5, t, 4); assert NormalizesTo(s, 2, t, 2);
  }
  lemma NormalizedDtMarks7() ensures NormalizeText("dt_marks") == "dtmarks" {
    ScannedDtMarks7("dt_marks", "dtmarks");
    NormalizesToSound("dt_marks", "dtmarks");
  }
  lemma ScannedDtMarks8(s: string, t: string)
    requires s == "mid marks" && t == "midmarks"
    ensures NormalizesTo(s, 0, t, 0)
  {
    assert NormalizesTo(s, 8, t, 7); assert NormalizesTo(s, 6, t, 5); assert NormalizesTo(s, 3, t, 3);
  }
  lemma NormalizedDtMarks8() ensures NormalizeText("mid marks") == "midmarks" {
    ScannedDtMarks8("mid marks", "midmarks");
    NormalizesToSound("mid marks", "midmarks");
  }
  lemma ScannedDtMarks9(s: string, t: string)
    requires s == "mid term" && t == "midterm"
    ensures NormalizesTo(s, 0, t, 0)
  {
    assert NormalizesTo(s, 7, t, 6); assert NormalizesTo(s, 6, t, 5); assert NormalizesTo(s, 3, t, 3);
  }
  lemma NormalizedDtMarks9() ensures NormalizeText("mid term") == "midterm" {
    ScannedDtMarks9("mid term", "midterm");
    NormalizesToSound("mid term", "midterm");
  }
}

module SynonymsStMarks {
  import opened Headers

  /** The variations of "st_marks" after normalize_column_name. */
  const Normalized: seq<string> := ["stmarks", "surprisetest", "stmarks", "surprisemarks", "st", "surprise", "surprisetestmarks", "stmarks", "quizmarks", "quiz"]

  lemma ScannedStMarks0(s: string, t: string)
    requires s == "st marks" && t == "stmarks"
    ensures NormalizesTo(s, 0, t, 0)
  {
    assert NormalizesTo(s, 7, t, 6); assert NormalizesTo(s, 5, t, 4); assert NormalizesTo(s, 2, t, 2);
  }
  lemma NormalizedStMarks0() ensures NormalizeText("st marks") == "stmarks" {
    ScannedStMarks0("st marks", "stmarks");
    NormalizesToSound("st marks", "stmarks");
  }
  lemma ScannedStMarks1(s: string, t: string)
    requires s == "surprise test" && t == "surprisetest"
    ensures NormalizesTo(s, 0, t, 0)
  {
    assert NormalizesTo(s, 12, t, 11); assert NormalizesTo(s, 11, t, 10); assert NormalizesTo(s, 8, t, 8); assert NormalizesTo(s, 6, t, 6); assert NormalizesTo(s, 3, t, 3);
  }
  lemma NormalizedStMarks1() ensures NormalizeText("surprise test") == "surprisetest" {
    ScannedStMarks1("surprise test", "surprisetest");
    NormalizesToSound("surprise test", "surprisetest");
  }
  lemma ScannedStMarks2(s: string, t: string)
    requires s == "stmarks" && t == "stmarks"
    ensures NormalizesTo(s, 0, t, 0)
  {
    assert NormalizesTo(s, 6, t, 6); assert NormalizesTo(s, 3, t, 3);
  }
  lemma NormalizedStMarks2() ensures NormalizeText("stmarks") == "stmarks" {
    ScannedStMarks2("stmarks", "stmarks");
    NormalizesToSound("stmarks", "stmarks");
  }
  lemma ScannedStMarks3(s: string, t: string)
    requires s == "surprise marks" && t == "surprisemarks"
    ensures NormalizesTo(s, 0, t, 0)
  {
    assert NormalizesTo(s, 13, t, 12); assert NormalizesTo(s, 11, t, 10); assert NormalizesTo(s, 8, t, 8); assert NormalizesTo(s, 6, t, 6); assert NormalizesTo(s, 3, t, 3);
  }
  lemma NormalizedStMarks3() ensures NormalizeText("surprise marks") == "surprisemarks" {
    ScannedStMarks3("surprise marks", "surprisemarks");
    NormalizesToSound("surprise marks", "surprisemarks");
  }
  lemma ScannedStMarks4(s: string, t: string)
    requires s == "st" && t == "st"
    ensures NormalizesTo(s, 0, t, 0)
  {
    assert NormalizesTo(s, 1, t, 1);
  }
  lemma NormalizedStMarks4() ensures NormalizeText("st") == "st" {
    ScannedStMarks4("st", "st");
    NormalizesToSound("st", "st");
  }
  lemma ScannedStMarks5(s: string, t: string)
    requires s == "surprise" && t == "surprise"
    ensures NormalizesTo(s, 0, t, 0)
  {
    assert NormalizesTo(s, 7, t, 7); assert NormalizesTo(s, 6, t, 6); assert NormalizesTo(s, 3, t, 3);
  }
  lemma NormalizedStMarks5() ensures NormalizeText("surprise") == "surprise" {
    ScannedStMarks5("surprise", "surprise");
    NormalizesToSound("surprise", "surprise");
  }
  lemma ScannedStMarks6(s: string, t: string)
    requires s == "surprise test marks" && t == "surprisetestmarks"
    ensures NormalizesTo(s, 0, t, 0)
  {
    assert NormalizesTo(s, 18, t, 16); assert NormalizesTo(s, 16, t, 14); assert NormalizesTo(s, 13, t, 12); assert NormalizesTo(s, 11, t, 10); assert NormalizesTo(s, 8, t, 8); assert NormalizesTo(s, 6, t, 6); assert NormalizesTo(s, 3, t, 3);
  }
  lemma NormalizedStMarks6() ensures NormalizeText("surprise test marks") == "surprisetestmarks" {
    ScannedStMarks6("surprise test marks", "surprisetestmarks");
    NormalizesToSound("surprise test marks", "surprisetestmarks");
  }
  lemma ScannedStMarks7(s: string, t: string)
    requires s == "st_marks" && t == "stmarks"
    ensures NormalizesTo(s, 0, t, 0)
  {
    assert NormalizesTo(s, 7, t, 6); assert NormalizesTo(s, 5, t, 4); assert NormalizesTo(s, 2, t, 2);
  }
  lemma NormalizedStMarks7() ensures NormalizeText("st_marks") == "stmarks" {
    ScannedStMarks7("st_marks", "stmarks");
    NormalizesToSound("st_marks", "stmarks");
  }
  lemma ScannedStMarks8(s: string, t: string)
    requires s == "quiz marks" && t == "quizmarks"
    ensures NormalizesTo(s, 0, t, 0)
  {
    assert NormalizesTo(s, 9, t, 8); assert NormalizesTo(s, 7, t, 6); assert NormalizesTo(s, 4, t, 4); assert NormalizesTo(s, 3, t, 3);
  }
  lemma NormalizedStMarks8() ensures NormalizeText("quiz marks") == "quizmarks" {
    ScannedStMarks8("quiz marks", "quizmarks");
    NormalizesToSound("quiz marks", "quizmarks");
  }
  lemma ScannedStMarks9(s: string, t: string)
    requires s == "quiz" && t == "quiz"
    ensures NormalizesTo(s, 0, t, 0)
  {
    assert NormalizesTo(s, 3, t, 3);
  }
  lemma NormalizedStMarks9() ensures NormalizeText("quiz") == "quiz" {
    ScannedStMarks9("quiz", "quiz");
    NormalizesToSound("quiz", "quiz");
  }
}

module SynonymsAtMarks {
  import opened Headers

  /** The variations of "at_marks" after normalize_column_name. */
  const Normalized: seq<string> := ["atmarks", "assignmenttest", "atmarks", "assignmentmarks", "at", "assignment", "assignmenttestmarks", "atmarks", "assignmentscore"]

  lemma ScannedAtMarks0(s: string, t: string)
    requires s == "at marks" && t == "atmarks"
    ensures NormalizesTo(s, 0, t, 0)
  {
    assert NormalizesTo(s, 7, t, 6); assert NormalizesTo(s, 5, t, 4); assert NormalizesTo(s, 2, t, 2);
  }
  lemma NormalizedAtMarks0() ensures NormalizeText("at marks") == "atmarks" {
    ScannedAtMarks0("at marks", "atmarks");
    NormalizesToSound("at marks", "atmarks");
  }
  lemma ScannedAtMarks1(s: string, t: string)
    requires s == "assignment test" && t == "assignmenttest"
    ensures NormalizesTo(s, 0, t, 0)
  {
    assert NormalizesTo(s, 14, t, 13); assert NormalizesTo(s, 13, t, 12); assert NormalizesTo(s, 10, t, 10); assert NormalizesTo(s, 9, t, 9); assert NormalizesTo(s, 6, t, 6); assert NormalizesTo(s, 3, t, 3);
  }
  lemma NormalizedAtMarks1() ensures NormalizeText("assignment test") == "assignmenttest" {
    ScannedAtMarks1("assignment test", "assignmenttest");
    NormalizesToSound("assignment test", "assignmenttest");
  }
  lemma ScannedAtMarks2(s: string, t: string)
    requires s == "atmarks" && t == "atmarks"
    ensures NormalizesTo(s, 0, t, 0)
  {
    assert NormalizesTo(s, 6, t, 6); assert NormalizesTo(s, 3, t, 3);
  }
  lemma NormalizedAtMarks2() ensures NormalizeText("atmarks") == "atmarks" {
    ScannedAtMarks2("atmarks", "atmarks");
    NormalizesToSound("atmarks", "atmarks");
  }
  lemma ScannedAtMarks3(s: string, t: string)
    requires s == "assignment marks" && t == "assignmentmarks"
    ensures NormalizesTo(s, 0, t, 0)
  {
    assert NormalizesTo(s, 15, t, 14); assert NormalizesTo(s, 13, t, 12); assert NormalizesTo(s, 10, t, 10); assert NormalizesTo(s, 9, t, 9); assert NormalizesTo(s, 6, t, 6); assert NormalizesTo(s, 3, t, 3);
  }
  lemma NormalizedAtMarks3() ensures NormalizeText("assignment marks") == "assignmentmarks" {
    ScannedAtMarks3("assignment marks", "assignmentmarks");
    NormalizesToSound("assignment marks", "assignmentmarks");
  }
  lemma ScannedAtMarks4(s: string, t: string)
    requires s == "at" && t == "at"
    ensures NormalizesTo(s, 0, t, 0)
  {
    assert NormalizesTo(s, 1, t, 1);
  }
  lemma NormalizedAtMarks4() ensures NormalizeText("at") == "at" {
    ScannedAtMarks4("at", "at");
    NormalizesToSound("at", "at");
  }
  lemma ScannedAtMarks5(s: string, t: string)
    requires s == "assignment" && t == "assignment"
    ensures NormalizesTo(s, 0, t, 0)
  {
    assert NormalizesTo(s, 9, t, 9); assert NormalizesTo(s, 6, t, 6); assert NormalizesTo(s, 3, t, 3);
  }
  lemma NormalizedAtMarks5() ensures NormalizeText("assignment") == "assignment" {
    ScannedAtMarks5("assignment", "assignment");
    NormalizesToSound("assignment", "assignment");
  }
  lemma ScannedAtMarks6(s: string, t: string)
    requires s == "assignment test marks" && t == "assignmenttestmarks"
    ensures NormalizesTo(s, 0, t, 0)
  {
    assert NormalizesTo(s, 20, t, 18); assert NormalizesTo(s, 18, t, 16); assert NormalizesTo(s, 15, t, 14); assert NormalizesTo(s, 13, t, 12); assert NormalizesTo(s, 10, t, 10); assert NormalizesTo(s, 9, t, 9); assert NormalizesTo(s, 6, t, 6); assert NormalizesTo(s, 3, t, 3);
  }
  lemma NormalizedAtMarks6() ensures NormalizeText("assignment test marks") == "assignmenttestmarks" {
    ScannedAtMarks6("assignment test marks", "assignmenttestmarks");
    NormalizesToSound("assignment test marks", "assignmenttestmarks");
  }
  lemma ScannedAtMarks7(s: string, t: string)
    requires s == "at_marks" && t == "atmarks"
    ensures NormalizesTo(s, 0, t, 0)
  {
    assert NormalizesTo(s, 7, t, 6); assert NormalizesTo(s, 5, t, 4); assert NormalizesTo(s, 2, t, 2);
  }
  lemma NormalizedAtMarks7() ensures NormalizeText("at_marks") == "atmarks" {
    ScannedAtMarks7("at_marks", "atmarks");
    NormalizesToSound("at_marks", "atmarks");
  }
  lemma ScannedAtMarks8(s: string, t: string)
    requires s == "assignment score" && t == "assignmentscore"
    ensures NormalizesTo(s, 0, t, 0)
  {
    assert NormalizesTo(s, 15, t, 14); assert NormalizesTo(s, 13, t, 12); assert NormalizesTo(s, 10, t, 10); assert NormalizesTo(s, 9, t, 9); assert NormalizesTo(s, 6, t, 6); assert NormalizesTo(s, 3, t, 3);
  }
  lemma NormalizedAtMarks8() ensures NormalizeText("assignment score") == "assignmentscore" {
    ScannedAtMarks8("assignment score", "assignmentscore");
    NormalizesToSound("assignment score", "assignmentscore");
  }
}

module SynonymsTotalMarks {
  import opened Headers

  /** The variations of "total_marks" after normalize_column_name. */
  const Normalized: seq<string> := ["totalmarks", "totalmarks", "total", "overallmarks", "aggregatemarks", "summarks", "totalscore", "totalmarks", "grandtotal", "markstotal"]

  lemma ScannedTotalMarks0(s: string, t: string)
    requires s == "total marks" && t == "totalmarks"
    ensures NormalizesTo(s, 0, t, 0)
  {
    assert NormalizesTo(s, 10, t, 9); assert NormalizesTo(s, 8, t, 7); assert NormalizesTo(s, 5, t, 5); assert NormalizesTo(s, 3, t, 3);
  }
  lemma NormalizedTotalMarks0() ensures NormalizeText("total marks") == "totalmarks" {
    ScannedTotalMarks0("total marks", "totalmarks");
    NormalizesToSound("total marks", "totalmarks");
  }
  lemma ScannedTotalMarks1(s: string, t: string)
    requires s == "totalmarks" && t == "totalmarks"
    ensures NormalizesTo(s, 0, t, 0)
  {
    assert NormalizesTo(s, 9, t, 9); assert NormalizesTo(s, 6, t, 6); assert NormalizesTo(s, 3, t, 3);
  }
  lemma NormalizedTotalMarks1() ensures NormalizeText("totalmarks") == "totalmarks" {
    ScannedTotalMarks1("totalmarks", "totalmarks");
    NormalizesToSound("totalmarks", "totalmarks");
  }
  lemma ScannedTotalMarks2(s: string, t: string)
    requires s == "total" && t == "total"
    ensures NormalizesTo(s, 0, t, 0)
  {
    assert NormalizesTo(s, 4, t, 4); assert NormalizesTo(s, 3, t, 3);
  }
  lemma NormalizedTotalMarks2() ensures NormalizeText("total") == "total" {
    ScannedTotalMarks2("total", "total");
    NormalizesToSound("total", "total");
  }
  lemma ScannedTotalMarks3(s: string, t: string)
    requires s == "overall marks" && t == "overallmarks"
    ensures NormalizesTo(s, 0, t, 0)
  {
    assert NormalizesTo(s, 12, t, 11); assert NormalizesTo(s, 10, t, 9); assert NormalizesTo(s, 7, t, 7); assert NormalizesTo(s, 6, t, 6); assert NormalizesTo(s, 3, t, 3);
  }
  lemma NormalizedTotalMarks3() ensures NormalizeText("overall marks") == "overallmarks" {
    ScannedTotalMarks3("overall marks", "overallmarks");
    NormalizesToSound("overall marks", "overallmarks");
  }
  lemma ScannedTotalMarks4(s: string, t: string)
    requires s == "aggregate marks" && t == "aggregatemarks"
    ensures NormalizesTo(s, 0, t, 0)
  {
    assert NormalizesTo(s, 14, t, 13); assert NormalizesTo(s, 12, t, 11); assert NormalizesTo(s, 9, t, 9); assert NormalizesTo(s, 6, t, 6); assert NormalizesTo(s, 3, t, 3);
  }
  lemma NormalizedTotalMarks4() ensures NormalizeText("aggregate marks") == "aggregatemarks" {
    ScannedTotalMarks4("aggregate marks", "aggregatemarks");
    NormalizesToSound("aggregate marks", "aggregatemarks");
  }
  lemma ScannedTotalMarks5(s: string, t: string)
    requires s == "sum marks" && t == "summarks"
    ensures NormalizesTo(s, 0, t, 0)
  {
    assert NormalizesTo(s, 8, t, 7); assert NormalizesTo(s, 6, t, 5); assert NormalizesTo(s, 3, t, 3);
  }
  lemma NormalizedTotalMarks5() ensures NormalizeText("sum marks") == "summarks" {
    ScannedTotalMarks5("sum marks", "summarks");
    NormalizesToSound("sum marks", "summarks");
  }
  lemma ScannedTotalMarks6(s: string, t: string)
    requires s == "total score" && t == "totalscore"
    ensures NormalizesTo(s, 0, t, 0)
  {
    assert NormalizesTo(s, 10, t, 9); assert NormalizesTo(s, 8, t, 7); assert NormalizesTo(s, 5, t, 5); assert NormalizesTo(s, 3, t, 3);
  }
  lemma NormalizedTotalMarks6() ensures NormalizeText("total score") == "totalscore" {
    ScannedTotalMarks6("total score", "totalscore");
    NormalizesToSound("total score", "totalscore");
  }
  lemma ScannedTotalMarks7(s: string, t: string)
    requires s == "total_marks" && t == "totalmarks"
    ensures NormalizesTo(s, 0, t, 0)
  {
    assert NormalizesTo(s, 10, t, 9); assert NormalizesTo(s, 8, t, 7); assert NormalizesTo(s, 5, t, 5); assert NormalizesTo(s, 3, t, 3);
  }
  lemma NormalizedTotalMarks7() ensures NormalizeText("total_marks") == "totalmarks" {
    ScannedTotalMarks7("total_marks", "totalmarks");
    NormalizesToSound("total_marks", "totalmarks");
  }
  lemma ScannedTotalMarks8(s: string, t: string)
    requires s == "grand total" && t == "grandtotal"
    ensures NormalizesTo(s, 0, t, 0)
  {
    assert NormalizesTo(s, 10, t, 9); assert NormalizesTo(s, 8, t, 7); assert NormalizesTo(s, 5, t, 5); assert NormalizesTo(s, 3, t, 3);
  }
  lemma NormalizedTotalMarks8() ensures NormalizeText("grand total") == "grandtotal" {
    ScannedTotalMarks8("grand total", "grandtotal");
    NormalizesToSound("grand total", "grandtotal");
  }
  lemma ScannedTotalMarks9(s: string, t: string)
    requires s == "marks total" && t == "markstotal"
    ensures NormalizesTo(s, 0, t, 0)
  {
    assert NormalizesTo(s, 10, t, 9); assert NormalizesTo(s, 8, t, 7); assert NormalizesTo(s, 5, t, 5); assert NormalizesTo(s, 3, t, 3);
  }
  lemma NormalizedTotalMarks9() ensures NormalizeText("marks total") == "markstotal" {
    ScannedTotalMarks9("marks total", "markstotal");
    NormalizesToSound("marks total", "markstotal");
  }
}

module SynonymsAttendanceConducted {
  import opened Headers

  /** The variations of "attendance_conducted" after normalize_column_name. */
  const Normalized: seq<string> := ["attendanceconducted", "classesconducted", "totalclasses", "conductedclasses", "attendanceconducted", "totalattendance", "attendanceconducted", "noofclassesconducted", "periodsconducted"]

  lemma ScannedAttendanceConducted0(s: string, t: string)
    requires s == "attendance conducted" && t == "attendanceconducted"
    ensures NormalizesTo(s, 0, t, 0)
  {
    assert NormalizesTo(s, 19, t, 18); assert NormalizesTo(s, 16, t, 15); assert NormalizesTo(s, 13, t, 12); assert NormalizesTo(s, 10, t, 10); assert NormalizesTo(s, 9, t, 9); assert NormalizesTo(s, 6, t, 6); assert NormalizesTo(s, 3, t, 3);
  }
  lemma NormalizedAttendanceConducted0() ensures NormalizeText("attendance conducted") == "attendanceconducted" {
    ScannedAttendanceConducted0("attendance conducted", "attendanceconducted");
    NormalizesToSound("attendance conducted", "attendanceconducted");
  }
  lemma ScannedAttendanceConducted1(s: string, t: string)
    requires s == "classes conducted" && t == "classesconducted"
    ensures NormalizesTo(s, 0, t, 0)
  {
    assert NormalizesTo(s, 16, t, 15); assert NormalizesTo(s, 13, t, 12); assert NormalizesTo(s, 10, t, 9); assert NormalizesTo(s, 7, t, 7); assert NormalizesTo(s, 6, t, 6); assert NormalizesTo(s, 3, t, 3);
  }
  lemma NormalizedAttendanceConducted1() ensures NormalizeText("classes conducted") == "classesconducted" {
    ScannedAttendanceConducted1("classes conducted", "classesconducted");
    NormalizesToSound("classes conducted", "classesconducted");
  }
  lemma ScannedAttendanceConducted2(s: string, t: string)
    requires s == "total classes" && t == "totalclasses"
    ensures NormalizesTo(s, 0, t, 0)
  {
    assert NormalizesTo(s, 12, t, 11); assert NormalizesTo(s, 11, t, 10); assert NormalizesTo(s, 8, t, 7); assert NormalizesTo(s, 5, t, 5); assert NormalizesTo(s, 3, t, 3);
  }
  lemma NormalizedAttendanceConducted2() ensures NormalizeText("total classes") == "totalclasses" {
    ScannedAttendanceConducted2("total classes", "totalclasses");
    NormalizesToSound("total classes", "totalclasses");
  }
  lemma ScannedAttendanceConducted3(s: string, t: string)
    requires s == "conducted classes" && t == "conductedclasses"
    ensures NormalizesTo(s, 0, t, 0)
  {
    assert NormalizesTo(s, 16, t, 15); assert NormalizesTo(s, 15, t, 14); assert NormalizesTo(s, 12, t, 11); assert NormalizesTo(s, 9, t, 9); assert NormalizesTo(s, 6, t, 6); assert NormalizesTo(s, 3, t, 3);
  }
  lemma NormalizedAttendanceConducted3() ensures NormalizeText("conducted classes") == "conductedclasses" {
    ScannedAttendanceConducted3("conducted classes", "conductedclasses");
    NormalizesToSound("conducted classes", "conductedclasses");
  }
  lemma ScannedAttendanceConducted4(s: string, t: string)
    requires s == "attendanceconducted" && t == "attendanceconducted"
    ensures NormalizesTo(s, 0, t, 0)
  {
    assert NormalizesTo(s, 18, t, 18); assert NormalizesTo(s, 15, t, 15); assert NormalizesTo(s, 12, t, 12); assert NormalizesTo(s, 9, t, 9); assert NormalizesTo(s, 6, t, 6); assert NormalizesTo(s, 3, t, 3);
  }
  lemma NormalizedAttendanceConducted4() ensures NormalizeText("attendanceconducted") == "attendanceconducted" {
    ScannedAttendanceConducted4("attendanceconducted", "attendanceconducted");
    NormalizesToSound("attendanceconducted", "attendanceconducted");
  }
  lemma ScannedAttendanceConducted5(s: string, t: string)
    requires s == "total attendance" && t == "totalattendance"
    ensures NormalizesTo(s, 0, t, 0)
  {
    assert NormalizesTo(s, 15, t, 14); assert NormalizesTo(s, 14, t, 13); assert NormalizesTo(s, 11, t, 10); assert NormalizesTo(s, 8, t, 7); assert NormalizesTo(s, 5, t, 5); assert NormalizesTo(s, 3, t, 3);
  }
  lemma NormalizedAttendanceConducted5() ensures NormalizeText("total attendance") == "totalattendance" {
    ScannedAttendanceConducted5("total attendance", "totalattendance");
    NormalizesToSound("total attendance", "totalattendance");
  }
  lemma ScannedAttendanceConducted6(s: string, t: string)
    requires s == "attendance_conducted" && t == "attendanceconducted"
    ensures NormalizesTo(s, 0, t, 0)
  {
    assert NormalizesTo(s, 19, t, 18); assert NormalizesTo(s, 16, t, 15); assert NormalizesTo(s, 13, t, 12); assert NormalizesTo(s, 10, t, 10); assert NormalizesTo(s, 9, t, 9); assert NormalizesTo(s, 6, t, 6); assert NormalizesTo(s, 3, t, 3);
  }
  lemma NormalizedAttendanceConducted6() ensures NormalizeText("attendance_conducted") == "attendanceconducted" {
    ScannedAttendanceConducted6("attendance_conducted", "attendanceconducted");
    NormalizesToSound("attendance_conducted", "attendanceconducted");
  }
  lemma ScannedAttendanceConducted7(s: string, t: string)
    requires s == "no of classes conducted" && t == "noofclassesconducted"
    ensures NormalizesTo(s, 0, t, 0)
  {
    assert NormalizesTo(s, 22, t, 19); assert NormalizesTo(s, 19, t, 16); assert NormalizesTo(s, 16, t, 13); assert NormalizesTo(s, 13, t, 11); assert NormalizesTo(s, 11, t, 9); assert NormalizesTo(s, 8, t, 6); assert NormalizesTo(s, 5, t, 4); assert NormalizesTo(s, 2, t, 2);
  }
  lemma NormalizedAttendanceConducted7() ensures NormalizeText("no of classes conducted") == "noofclassesconducted" {
    ScannedAttendanceConducted7("no of classes conducted", "noofclassesconducted");
    NormalizesToSound("no of classes conducted", "noofclassesconducted");
  }
  lemma ScannedAttendanceConducted8(s: string, t: string)
    requires s == "periods conducted" && t == "periodsconducted"
    ensures NormalizesTo(s, 0, t, 0)
  {
    assert NormalizesTo(s, 16, t, 15); assert NormalizesTo(s, 13, t, 12); assert NormalizesTo(s, 10, t, 9); assert NormalizesTo(s, 7, t, 7); assert NormalizesTo(s, 6, t, 6); assert NormalizesTo(s, 3, t, 3);
  }
  lemma NormalizedAttendanceConducted8() ensures NormalizeText("periods conducted") == "periodsconducted" {
    ScannedAttendanceConducted8("periods conducted", "periodsconducted");
    NormalizesToSound("periods conducted", "periodsconducted");
  }
}

module SynonymsAttendancePresent {
  import opened Headers

  /** The variations of "attendance_present" after normalize_column_name. */
  const Normalized: seq<string> := ["attendancepresent", "classesattended", "presentclasses", "attendancepresent", "attendedclasses", "present", "attendancepresent", "noofclassesattended", "periodsattended", "classespresent"]

  lemma ScannedAttendancePresent0(s: string, t: string)
    requires s == "attendance present" && t == "attendancepresent"
    ensures NormalizesTo(s, 0, t, 0)
  {
    assert NormalizesTo(s, 17, t, 16); assert NormalizesTo(s, 16, t, 15); assert NormalizesTo(s, 13, t, 12); assert NormalizesTo(s, 10, t, 10); assert NormalizesTo(s, 9, t, 9); assert NormalizesTo(s, 6, t, 6); assert NormalizesTo(s, 3, t, 3);
  }
  lemma NormalizedAttendancePresent0() ensures NormalizeText("attendance present") == "attendancepresent" {
    ScannedAttendancePresent0("attendance present", "attendancepresent");
    NormalizesToSound("attendance present", "attendancepresent");
  }
  lemma ScannedAttendancePresent1(s: string, t: string)
    requires s == "classes attended" && t == "classesattended"
    ensures NormalizesTo(s, 0, t, 0)
  {
    assert NormalizesTo(s, 15, t, 14); assert NormalizesTo(s, 13, t, 12); assert NormalizesTo(s, 10, t, 9); assert NormalizesTo(s, 7, t, 7); assert NormalizesTo(s, 6, t, 6); assert NormalizesTo(s, 3, t, 3);
  }
  lemma NormalizedAttendancePresent1() ensures NormalizeText("classes attended") == "classesattended" {
    ScannedAttendancePresent1("classes attended", "classesattended");
    NormalizesToSound("classes attended", "classesattended");
  }
  lemma ScannedAttendancePresent2(s: string, t: string)
    requires s == "present classes" && t == "presentclasses"
    ensures NormalizesTo(s, 0, t, 0)
  {
    assert NormalizesTo(s, 14, t, 13); assert NormalizesTo(s, 13, t, 12); assert NormalizesTo(s, 10, t, 9); assert NormalizesTo(s, 7, t, 7); assert NormalizesTo(s, 6, t, 6); assert NormalizesTo(s, 3, t, 3);
  }
  lemma NormalizedAttendancePresent2() ensures NormalizeText("present classes") == "presentclasses" {
    ScannedAttendancePresent2("present classes", "presentclasses");
    NormalizesToSound("present classes", "presentclasses");
  }
  lemma ScannedAttendancePresent3(s: string, t: string)
    requires s == "attendancepresent" && t == "attendancepresent"
    ensures NormalizesTo(s, 0, t, 0)
  {
    assert NormalizesTo(s, 16, t, 16); assert NormalizesTo(s, 15, t, 15); assert NormalizesTo(s, 12, t, 12); assert NormalizesTo(s, 9, t, 9); assert NormalizesTo(s, 6, t, 6); assert NormalizesTo(s, 3, t, 3);
  }
  lemma NormalizedAttendancePresent3() ensures NormalizeText("attendancepresent") == "attendancepresent" {
    ScannedAttendancePresent3("attendancepresent", "attendancepresent");
    NormalizesToSound("attendancepresent", "attendancepresent");
  }
  lemma ScannedAttendancePresent4(s: string, t: string)
    requires s == "attended classes" && t == "attendedclasses"
    ensures NormalizesTo(s, 0, t, 0)
  {
    assert NormalizesTo(s, 15, t, 14); assert NormalizesTo(s, 14, t, 13); assert NormalizesTo(s, 11, t, 10); assert NormalizesTo(s, 8, t, 8); assert NormalizesTo(s, 6, t, 6); assert NormalizesTo(s, 3, t, 3);
  }
  lemma NormalizedAttendancePresent4() ensures NormalizeText("attended classes") == "attendedclasses" {
    ScannedAttendancePresent4("attended classes", "attendedclasses");
    NormalizesToSound("attended classes", "attendedclasses");
  }
  lemma ScannedAttendancePresent5(s: string, t: string)
    requires s == "present" && t == "present"
    ensures NormalizesTo(s, 0, t, 0)
  {
    assert NormalizesTo(s, 6, t, 6); assert NormalizesTo(s, 3, t, 3);
  }
  lemma NormalizedAttendancePresent5() ensures NormalizeText("present") == "present" {
    ScannedAttendancePresent5("present", "present");
    NormalizesToSound("present", "present");
  }
  lemma ScannedAttendancePresent6(s: string, t: string)
    requires s == "attendance_present" && t == "attendancepresent"
    ensures NormalizesTo(s, 0, t, 0)
  {
    assert NormalizesTo(s, 17, t, 16); assert NormalizesTo(s, 16, t, 15); assert NormalizesTo(s, 13, t, 12); assert NormalizesTo(s, 10, t, 10); assert NormalizesTo(s, 9, t, 9); assert NormalizesTo(s, 6, t, 6); assert NormalizesTo(s, 3, t, 3);
  }
  lemma NormalizedAttendancePresent6() ensures NormalizeText("attendance_present") == "attendancepresent" {
    ScannedAttendancePresent6("attendance_present", "attendancepresent");
    NormalizesToSound("attendance_present", "attendancepresent");
  }
  lemma ScannedAttendancePresent7(s: string, t: string)
    requires s == "no of classes attended" && t == "noofclassesattended"
    ensures NormalizesTo(s, 0, t, 0)
  {
    assert NormalizesTo(s, 21, t, 18); assert NormalizesTo(s, 19, t, 16); assert NormalizesTo(s, 16, t, 13); assert NormalizesTo(s, 13, t, 11); assert NormalizesTo(s, 11, t, 9); assert NormalizesTo(s, 8, t, 6); assert NormalizesTo(s, 5, t, 4); assert NormalizesTo(s, 2, t, 2);
  }
  lemma NormalizedAttendancePresent7() ensures NormalizeText("no of classes attended") == "noofclassesattended" {
    ScannedAttendancePresent7("no of classes attended", "noofclassesattended");
    NormalizesToSound("no of classes attended", "noofclassesattended");
  }
  lemma ScannedAttendancePresent8(s: string, t: string)
    requires s == "periods attended" && t == "periodsattended"
    ensures NormalizesTo(s, 0, t, 0)
  {
    assert NormalizesTo(s, 15, t, 14); assert NormalizesTo(s, 13, t, 12); assert NormalizesTo(s, 10, t, 9); assert NormalizesTo(s, 7, t, 7); assert NormalizesTo(s, 6, t, 6); assert NormalizesTo(s, 3, t, 3);
  }
  lemma NormalizedAttendancePresent8() ensures NormalizeText("periods attended") == "periodsattended" {
    ScannedAttendancePresent8("periods attended", "periodsattended");
    NormalizesToSound("periods attended", "periodsattended");
  }
  lemma ScannedAttendancePresent9(s: string, t: string)
    requires s == "classes present" && t == "classespresent"
    ensures NormalizesTo(s, 0, t, 0)
  {
    assert NormalizesTo(s, 14, t, 13); assert NormalizesTo(s, 13, t, 12); assert NormalizesTo(s, 10, t, 9); assert NormalizesTo(s, 7, t, 7); assert NormalizesTo(s, 6, t, 6); assert NormalizesTo(s, 3, t, 3);
  }
  lemma NormalizedAttendancePresent9() ensures NormalizeText("classes present") == "classespresent" {
    ScannedAttendancePresent9("classes present", "classespresent");
    NormalizesToSound("classes present", "classespresent");
  }
}

module SynonymsLabMarks {
  import opened Headers

  /** The variations of "lab_marks" after normalize_column_name. */
  const Normalized: seq<string> := ["labmarks", "labmarks", "labmarks", "labscore", "labtotal", "practicalmarks", "marks"]

  lemma ScannedLabMarks0(s: string, t: string)
    requires s == "lab marks" && t == "labmarks"
    ensures NormalizesTo(s, 0, t, 0)
  {
    assert NormalizesTo(s, 8, t, 7); assert NormalizesTo(s, 6, t, 5); assert NormalizesTo(s, 3, t, 3);
  }
  lemma NormalizedLabMarks0() ensures NormalizeText("lab marks") == "labmarks" {
    ScannedLabMarks0("lab marks", "labmarks");
    NormalizesToSound("lab marks", "labmarks");
  }
  lemma ScannedLabMarks1(s: string, t: string)
    requires s == "labmarks" && t == "labmarks"
    ensures NormalizesTo(s, 0, t, 0)
  {
    assert NormalizesTo(s, 7, t, 7); assert NormalizesTo(s, 6, t, 6); assert NormalizesTo(s, 3, t, 3);
  }
  lemma NormalizedLabMarks1() ensures NormalizeText("labmarks") == "labmarks" {
    ScannedLabMarks1("labmarks", "labmarks");
    NormalizesToSound("labmarks", "labmarks");
  }
  lemma ScannedLabMarks2(s: string, t: string)
    requires s == "lab_marks" && t == "labmarks"
    ensures NormalizesTo(s, 0, t, 0)
  {
    assert NormalizesTo(s, 8, t, 7); assert NormalizesTo(s, 6, t, 5); assert NormalizesTo(s, 3, t, 3);
  }
  lemma NormalizedLabMarks2() ensures NormalizeText("lab_marks") == "labmarks" {
    ScannedLabMarks2("lab_marks", "labmarks");
    NormalizesToSound("lab_marks", "labmarks");
  }
  lemma ScannedLabMarks3(s: string, t: string)
    requires s == "lab score" && t == "labscore"
    ensures NormalizesTo(s, 0, t, 0)
  {
    assert NormalizesTo(s, 8, t, 7); assert NormalizesTo(s, 6, t, 5); assert NormalizesTo(s, 3, t, 3);
  }
  lemma NormalizedLabMarks3() ensures NormalizeText("lab score") == "labscore" {
    ScannedLabMarks3("lab score", "labscore");
    NormalizesToSound("lab score", "labscore");
  }
  lemma ScannedLabMarks4(s: string, t: string)
    requires s == "lab total" && t == "labtotal"
    ensures NormalizesTo(s, 0, t, 0)
  {
    assert NormalizesTo(s, 8, t, 7); assert NormalizesTo(s, 6, t, 5); assert NormalizesTo(s, 3, t, 3);
  }
  lemma NormalizedLabMarks4() ensures NormalizeText("lab total") == "labtotal" {
    ScannedLabMarks4("lab total", "labtotal");
    NormalizesToSound("lab total", "labtotal");
  }
  lemma ScannedLabMarks5(s: string, t: string)
    requires s == "practical marks" && t == "practicalmarks"
    ensures NormalizesTo(s, 0, t, 0)
  {
    assert NormalizesTo(s, 14, t, 13); assert NormalizesTo(s, 12, t, 11); assert NormalizesTo(s, 9, t, 9); assert NormalizesTo(s, 6, t, 6); assert NormalizesTo(s, 3, t, 3);
  }
  lemma NormalizedLabMarks5() ensures NormalizeText("practical marks") == "practicalmarks" {
    ScannedLabMarks5("practical marks", "practicalmarks");
    NormalizesToSound("practical marks", "practicalmarks");
  }
  lemma ScannedLabMarks6(s: string, t: string)
    requires s == "marks" && t == "marks"
    ensures NormalizesTo(s, 0, t, 0)
  {
    assert NormalizesTo(s, 4, t, 4); assert NormalizesTo(s, 3, t, 3);
  }
  lemma NormalizedLabMarks6() ensures NormalizeText("marks") == "marks" {
    ScannedLabMarks6("marks", "marks");
    NormalizesToSound("marks", "marks");
  }
}

/** Ties each literal list of the Config module to its normalised list. */
module SynonymsLinks {
  import opened Config
  import opened Headers
  import SynonymsRollNo
  import SynonymsStudentName
  import SynonymsFatherName
  import SynonymsDtMarks
  import SynonymsStMarks
  import SynonymsAtMarks
  import SynonymsTotalMarks
  import SynonymsAttendanceConducted
  import SynonymsAttendancePresent
  import SynonymsLabMarks

  lemma RollNoNormalized()
    ensures |SynonymsRollNo.Normalized| == |RollNoVariations|
    ensures forall j :: 0 <= j < |RollNoVariations| ==>
              NormalizeText(RollNoVariations[j]) == SynonymsRollNo.Normalized[j] != ""
  {
    SynonymsRollNo.NormalizedRollNo0(); SynonymsRollNo.NormalizedRollNo1(); SynonymsRollNo.NormalizedRollNo2(); SynonymsRollNo.NormalizedRollNo3();
    SynonymsRollNo.NormalizedRollNo4(); SynonymsRollNo.NormalizedRollNo5(); SynonymsRollNo.NormalizedRollNo6(); SynonymsRollNo.NormalizedRollNo7();
    SynonymsRollNo.NormalizedRollNo8(); SynonymsRollNo.NormalizedRollNo9(); SynonymsRollNo.NormalizedRollNo10(); SynonymsRollNo.NormalizedRollNo11();
    SynonymsRollNo.NormalizedRollNo12(); SynonymsRollNo.NormalizedRollNo13(); SynonymsRollNo.NormalizedRollNo14();
  }

  lemma StudentNameNormalized()
    ensures |SynonymsStudentName.Normalized| == |StudentNameVariations|
    ensures forall j :: 0 <= j < |StudentNameVariations| ==>
              NormalizeText(StudentNameVariations[j]) == SynonymsStudentName.Normalized[j] != ""
  {
    SynonymsStudentName.NormalizedStudentName0(); SynonymsStudentName.NormalizedStudentName1(); SynonymsStudentName.NormalizedStudentName2(); SynonymsStudentName.NormalizedStudentName3();
    SynonymsStudentName.NormalizedStudentName4(); SynonymsStudentName.NormalizedStudentName5(); SynonymsStudentName.NormalizedStudentName6(); SynonymsStudentName.NormalizedStudentName7();
    SynonymsStudentName.NormalizedStudentName8();
  }

  lemma FatherNameNormalized()
    ensures |SynonymsFatherName.Normalized| == |FatherNameVariations|
    ensures forall j :: 0 <= j < |FatherNameVariations| ==>
              NormalizeText(FatherNameVariations[j]) == SynonymsFatherName.Normalized[j] != ""
  {
    SynonymsFatherName.NormalizedFatherName0(); SynonymsFatherName.NormalizedFatherName1(); SynonymsFatherName.NormalizedFatherName2(); SynonymsFatherName.NormalizedFatherName3();
    SynonymsFatherName.NormalizedFatherName4(); SynonymsFatherName.NormalizedFatherName5(); SynonymsFatherName.NormalizedFatherName6(); SynonymsFatherName.NormalizedFatherName7();
    SynonymsFatherName.NormalizedFatherName8(); SynonymsFatherName.NormalizedFatherName9();
  }

  lemma DtMarksNormalized()
    ensures |SynonymsDtMarks.Normalized| == |DtMarksVariations|
    ensures forall j :: 0 <= j < |DtMarksVariations| ==>
              NormalizeText(DtMarksVariations[j]) == SynonymsDtMarks.Normalized[j] != ""
  {
    SynonymsDtMarks.NormalizedDtMarks0(); SynonymsDtMarks.NormalizedDtMarks1(); SynonymsDtMarks.NormalizedDtMarks2(); SynonymsDtMarks.NormalizedDtMarks3();
    SynonymsDtMarks.NormalizedDtMarks4(); SynonymsDtMarks.NormalizedDtMarks5(); SynonymsDtMarks.NormalizedDtMarks6(); SynonymsDtMarks.NormalizedDtMarks7();
    SynonymsDtMarks.NormalizedDtMarks8(); SynonymsDtMarks.NormalizedDtMarks9();
  }

  lemma StMarksNormalized()
    ensures |SynonymsStMarks.Normalized| == |StMarksVariations|
    ensures forall j :: 0 <= j < |StMarksVariations| ==>
              NormalizeText(StMarksVariations[j]) == SynonymsStMarks.Normalized[j] != ""
  {
    SynonymsStMarks.NormalizedStMarks0(); SynonymsStMarks.NormalizedStMarks1(); SynonymsStMarks.NormalizedStMarks2(); SynonymsStMarks.NormalizedStMarks3();
    SynonymsStMarks.NormalizedStMarks4(); SynonymsStMarks.NormalizedStMarks5(); SynonymsStMarks.NormalizedStMarks6(); SynonymsStMarks.NormalizedStMarks7();
    SynonymsStMarks.NormalizedStMarks8(); SynonymsStMarks.NormalizedStMarks9();
  }

  lemma AtMarksNormalized()
    ensures |SynonymsAtMarks.Normalized| == |AtMarksVariations|
    ensures forall j :: 0 <= j < |AtMarksVariations| ==>
              NormalizeText(AtMarksVariations[j]) == SynonymsAtMarks.Normalized[j] != ""
  {
    SynonymsAtMarks.NormalizedAtMarks0(); SynonymsAtMarks.NormalizedAtMarks1(); SynonymsAtMarks.NormalizedAtMarks2(); SynonymsAtMarks.NormalizedAtMarks3();
    SynonymsAtMarks.NormalizedAtMarks4(); SynonymsAtMarks.NormalizedAtMarks5(); SynonymsAtMarks.NormalizedAtMarks6(); SynonymsAtMarks.NormalizedAtMarks7();
    SynonymsAtMarks.NormalizedAtMarks8();
  }

  lemma TotalMarksNormalized()
    ensures |SynonymsTotalMarks.Normalized| == |TotalMarksVariations|
    ensures forall j :: 0 <= j < |TotalMarksVariations| ==>
              NormalizeText(TotalMarksVariations[j]) == SynonymsTotalMarks.Normalized[j] != ""
  {
    SynonymsTotalMarks.NormalizedTotalMarks0(); SynonymsTotalMarks.NormalizedTotalMarks1(); SynonymsTotalMarks.NormalizedTotalMarks2(); SynonymsTotalMarks.NormalizedTotalMarks3();
    SynonymsTotalMarks.NormalizedTotalMarks4(); SynonymsTotalMarks.NormalizedTotalMarks5(); SynonymsTotalMarks.NormalizedTotalMarks6(); SynonymsTotalMarks.NormalizedTotalMarks7();
    SynonymsTotalMarks.NormalizedTotalMarks8(); SynonymsTotalMarks.NormalizedTotalMarks9();
  }

  lemma AttendanceConductedNormalized()
    ensures |SynonymsAttendanceConducted.Normalized| == |AttendanceConductedVariations|
    ensures forall j :: 0 <= j < |AttendanceConductedVariations| ==>
              NormalizeText(AttendanceConductedVariations[j]) == SynonymsAttendanceConducted.Normalized[j] != ""
  {
    SynonymsAttendanceConducted.NormalizedAttendanceConducted0(); SynonymsAttendanceConducted.NormalizedAttendanceConducted1(); SynonymsAttendanceConducted.NormalizedAttendanceConducted2(); SynonymsAttendanceConducted.NormalizedAttendanceConducted3();
    SynonymsAttendanceConducted.NormalizedAttendanceConducted4(); SynonymsAttendanceConducted.NormalizedAttendanceConducted5(); SynonymsAttendanceConducted.NormalizedAttendanceConducted6(); SynonymsAttendanceConducted.NormalizedAttendanceConducted7();
    SynonymsAttendanceConducted.NormalizedAttendanceConducted8();
  }

  lemma AttendancePresentNormalized()
    ensures |SynonymsAttendancePresent.Normalized| == |AttendancePresentVariations|
    ensures forall j :: 0 <= j < |AttendancePresentVariations| ==>
              NormalizeText(AttendancePresentVariations[j]) == SynonymsAttendancePresent.Normalized[j] != ""
  {
    SynonymsAttendancePresent.NormalizedAttendancePresent0(); SynonymsAttendancePresent.NormalizedAttendancePresent1(); SynonymsAttendancePresent.NormalizedAttendancePresent2(); SynonymsAttendancePresent.NormalizedAttendancePresent3();
    SynonymsAttendancePresent.NormalizedAttendancePresent4(); SynonymsAttendancePresent.NormalizedAttendancePresent5(); SynonymsAttendancePresent.NormalizedAttendancePresent6(); SynonymsAttendancePresent.NormalizedAttendancePresent7();
    SynonymsAttendancePresent.NormalizedAttendancePresent8(); SynonymsAttendancePresent.NormalizedAttendancePresent9();
  }

  lemma LabMarksNormalized()
    ensures |SynonymsLabMarks.Normalized| == |LabMarksVariations|
    ensures forall j :: 0 <= j < |LabMarksVariations| ==>
              NormalizeText(LabMarksVariations[j]) == SynonymsLabMarks.Normalized[j] != ""
  {
    SynonymsLabMarks.NormalizedLabMarks0(); SynonymsLabMarks.NormalizedLabMarks1(); SynonymsLabMarks.NormalizedLabMarks2(); SynonymsLabMarks.NormalizedLabMarks3();
    SynonymsLabMarks.NormalizedLabMarks4(); SynonymsLabMarks.NormalizedLabMarks5(); SynonymsLabMarks.NormalizedLabMarks6();
  }

}
