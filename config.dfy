/** The static synonym tables that turn spreadsheet headers into canonical field names. */
module Config {
  import opened Dicts

  /** One entry of a synonym table: a canonical name (the key) and the header spellings
      that mean it (the value). */
  type Mapping = Entry<string, seq<string>>

  const RollNoVariations: seq<string> := [
    "roll no", "rollno", "roll number", "student id", "id", "roll_no", "roll_no.", "roll",
    "student_id", "registration no", "reg no", "enrollment no", "enroll no", "ht no",
    "hall ticket no"
  ]

  const StudentNameVariations: seq<string> := [
    "student name", "name", "full name", "studentname", "name of student", "candidate name",
    "student", "student_name", "pupil name"
  ]

  const FatherNameVariations: seq<string> := [
    "father name", "fathername", "parent name", "guardian name", "father's name",
    "parent's name", "father", "father_name", "parent", "guardian"
  ]

  const DtMarksVariations: seq<string> := [
    "dt marks", "descriptive test", "dtmarks", "descriptive marks", "dt", "test marks",
    "descriptive", "dt_marks", "mid marks", "mid term"
  ]

  const StMarksVariations: seq<string> := [
    "st marks", "surprise test", "stmarks", "surprise marks", "st", "surprise",
    "surprise test marks", "st_marks", "quiz marks", "quiz"
  ]

  const AtMarksVariations: seq<string> := [
    "at marks", "assignment test", "atmarks", "assignment marks", "at", "assignment",
    "assignment test marks", "at_marks", "assignment score"
  ]

  const TotalMarksVariations: seq<string> := [
    "total marks", "totalmarks", "total", "overall marks", "aggregate marks", "sum marks",
    "total score", "total_marks", "grand total", "marks total"
  ]

  const AttendanceConductedVariations: seq<string> := [
    "attendance conducted", "classes conducted", "total classes", "conducted classes",
    "attendanceconducted", "total attendance", "attendance_conducted",
    "no of classes conducted", "periods conducted"
  ]

  const AttendancePresentVariations: seq<string> := [
    "attendance present", "classes attended", "present classes", "attendancepresent",
    "attended classes", "present", "attendance_present", "no of classes attended",
    "periods attended", "classes present"
  ]

  const LabMarksVariations: seq<string> := [
    "lab marks", "labmarks", "lab_marks", "lab score", "lab total", "practical marks", "marks"
  ]

  /** COLUMN_MAPPINGS, in the order the lookup tries it. */
  const ColumnMappings: seq<Mapping> := [
    Entry("roll_no", RollNoVariations),
    Entry("student_name", StudentNameVariations),
    Entry("father_name", FatherNameVariations),
    Entry("dt_marks", DtMarksVariations),
    Entry("st_marks", StMarksVariations),
    Entry("at_marks", AtMarksVariations),
    Entry("total_marks", TotalMarksVariations),
    Entry("attendance_conducted", AttendanceConductedVariations),
    Entry("attendance_present", AttendancePresentVariations),
    Entry("lab_marks", LabMarksVariations)
  ]

  const BacklogRollNoVariations: seq<string> := [
    "roll no", "rollno", "roll number", "student id", "id", "roll_no", "roll_no.", "roll",
    "student_id", "registration no", "reg no", "enrollment no", "enroll no", "ht no",
    "hall ticket no", "htno"
  ]

  const BacklogStudentNameVariations: seq<string> := [
    "student name", "name", "full name", "studentname", "name of student", "candidate name",
    "student", "student_name", "pupil name"
  ]

  const BacklogFatherNameVariations: seq<string> := [
    "father name", "fathername", "parent name", "guardian name", "father's name",
    "parent's name", "father", "father_name", "parent", "guardian"
  ]

  const Sem1Variations: seq<string> :=
    ["sem 1", "sem1", "semester 1", "semester1", "i sem", "sem-1", "1st sem", "first sem", "s1", "sem_1"]
  const Sem2Variations: seq<string> :=
    ["sem 2", "sem2", "semester 2", "semester2", "ii sem", "sem-2", "2nd sem", "second sem", "s2", "sem_2"]
  const Sem3Variations: seq<string> :=
    ["sem 3", "sem3", "semester 3", "semester3", "iii sem", "sem-3", "3rd sem", "third sem", "s3", "sem_3"]
  const Sem4Variations: seq<string> :=
    ["sem 4", "sem4", "semester 4", "semester4", "iv sem", "sem-4", "4th sem", "fourth sem", "s4", "sem_4"]
  const Sem5Variations: seq<string> :=
    ["sem 5", "sem5", "semester 5", "semester5", "v sem", "sem-5", "5th sem", "fifth sem", "s5", "sem_5"]
  const Sem6Variations: seq<string> :=
    ["sem 6", "sem6", "semester 6", "semester6", "vi sem", "sem-6", "6th sem", "sixth sem", "s6", "sem_6"]
  const Sem7Variations: seq<string> :=
    ["sem 7", "sem7", "semester 7", "semester7", "vii sem", "sem-7", "7th sem", "seventh sem", "s7", "sem_7"]
  const Sem8Variations: seq<string> :=
    ["sem 8", "sem8", "semester 8", "semester8", "viii sem", "sem-8", "8th sem", "eighth sem", "s8", "sem_8"]

  /** BACKLOG_COLUMN_MAPPINGS: identity columns and one entry per semester. */
  const BacklogColumnMappings: seq<Mapping> := [
    Entry("roll_no", BacklogRollNoVariations),
    Entry("student_name", BacklogStudentNameVariations),
    Entry("father_name", BacklogFatherNameVariations),
    Entry("sem 1", Sem1Variations),
    Entry("sem 2", Sem2Variations),
    Entry("sem 3", Sem3Variations),
    Entry("sem 4", Sem4Variations),
    Entry("sem 5", Sem5Variations),
    Entry("sem 6", Sem6Variations),
    Entry("sem 7", Sem7Variations),
    Entry("sem 8", Sem8Variations)
  ]
}
