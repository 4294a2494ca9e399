/** The reports routes: generate_reports fills the module-level `generated_reports` dict
    with one document per student and a consolidated one; the other routes download one
    document, zip them all, list them, clear them, or find a student's document to preview.
    A document is the report (or pages) it renders, not its bytes. */
module Reports {
  import opened Cells
  import opened Tables
  import opened Dicts
  import opened Ingest
  import opened Reconcile
  import opened Report
  import opened Uploads
  import opened Preview

  /** A generated .docx: one student's report, or the consolidated document's pages. */
  datatype Doc = Single(report: ReportData) | Consolidated(pages: seq<Option<ReportData>>)

  /** One value of the response's `reports` dict. */
  datatype Link = Link(filename: string, studentName: string)

  /** The response of generate_reports (success is always true). */
  datatype Generated = Generated(
    message: string, reports: seq<Entry<Cell, Link>>, consolidated: Option<string>, total: nat)

  /** `f"{student_roll}_{student_name.replace(' ', '_')}_Report.docx"` */
  function FileName(roll: Cell, name: string): (f: string)
    ensures StartsWith(f, ToStr(roll))
  {
    ToStr(roll) + "_" + ReplaceChar(name, ' ', '_') + "_Report.docx"
  }

  /** The consolidated document's name for a `%Y%m%d_%H%M%S` time stamp. */
  function ConsolidatedName(stamp: string): string {
    "Consolidated_Progress_Report_" + stamp + ".docx"
  }

  /** `config.students if config.students else data["all_students"]` */
  function Targets(students: seq<string>, allStudents: seq<Cell>): (rolls: seq<Cell>)
    ensures students == [] ==> rolls == allStudents
    ensures students != [] ==> |rolls| == |students| && forall i :: 0 <= i < |rolls| ==> rolls[i] == Text(students[i])
  {
    if students != [] then seq(|students|, i requires 0 <= i < |students| => Text(students[i])) else allStudents
  }

  // ---------------------------------------------------------------------------
  // The individual reports

  /** A generated report and the name it is stored under. */
  datatype Made = Made(filename: string, report: ReportData)

  /** The report generate_reports stores for one roll: none when no subject table holds the
      roll (the loop continues) or when create_comprehensive_student_report raises (the
      exception is caught and the loop continues). */
  function Individual(roll: Cell, subjects: seq<Subject>, roster: Option<Table>, opts: Options): (r: Option<Made>)
    requires HasRolls(subjects) && (roster.Some? ==> Valid(roster.value))
    ensures r.Some? ==> SubjectsOf(subjects, Key(roll)) != []
    ensures r.Some? ==> r.value.filename == FileName(roll, r.value.report.name)
  {
    var d := CompleteData(roll, subjects, roster);
    if d.subjects == [] then None
    else match ReportOf(d, opts, roster, Trimmed)
      case Ok(rep) => Some(Made(FileName(roll, rep.name), rep))
      case Err(_) => None
  }

  /** The outcome of the loop body for each roll in turn. */
  function IndividualReports(rolls: seq<Cell>, subjects: seq<Subject>, roster: Option<Table>, opts: Options): (reps: seq<Option<Made>>)
    requires HasRolls(subjects) && (roster.Some? ==> Valid(roster.value))
    ensures |reps| == |rolls|
  {
    seq(|rolls|, i requires 0 <= i < |rolls| && HasRolls(subjects) && (roster.Some? ==> Valid(roster.value)) =>
      Individual(rolls[i], subjects, roster, opts))
  }

  /** The document store and the `individual_reports` dict as the loop leaves them. */
  datatype Batch = Batch(files: seq<Entry<string, Doc>>, links: seq<Entry<Cell, Link>>)

  /** One pass of the loop: a report is stored under its file name (replacing an equal
      name) and linked from its roll (replacing an equal roll). */
  function Store(b: Batch, roll: Cell, rep: Option<Made>): Batch {
    if rep.None? then b
    else
      var m := rep.value;
      Batch(Put(b.files, m.filename, Single(m.report)), Put(b.links, roll, Link(m.filename, m.report.name)))
  }

  /** The loop over the rolls, with reps[i] the outcome for rolls[i], starting from the
      documents already generated. */
  function Individuals(files: seq<Entry<string, Doc>>, rolls: seq<Cell>, reps: seq<Option<Made>>): (b: Batch)
    requires |rolls| == |reps|
    decreases |rolls|
  {
    if rolls == [] then Batch(files, [])
    else
      var n := |rolls| - 1;
      Store(Individuals(files, rolls[..n], reps[..n]), rolls[n], reps[n])
  }

  /** The documents without a consolidated one: the consolidated document is added when
      create_consolidated_all_students_report succeeds. */
  function WithConsolidated(files: seq<Entry<string, Doc>>, pages: Result<seq<Option<ReportData>>, string>, stamp: string): seq<Entry<string, Doc>> {
    if pages.Ok? then Put(files, ConsolidatedName(stamp), Consolidated(pages.value)) else files
  }

  /** The body of generate_reports' loop for rolls[i]: get_student_complete_data, then
      create_comprehensive_student_report unless the student has no subject; None when
      the loop continues. */
  method GenerateOne(rolls: seq<Cell>, i: nat, subjects: seq<Subject>, roster: Option<Table>, opts: Options) returns (rep: Option<Made>)
    requires i < |rolls| && HasRolls(subjects) && (roster.Some? ==> Valid(roster.value))
    ensures rep == IndividualReports(rolls, subjects, roster, opts)[i]
  {
    var d := GetStudentCompleteData(rolls[i], subjects, roster);
    if d.subjects == [] {
      return None;
    }
    var r := CreateReport(d, opts, roster, Trimmed);
    rep := if r.Ok? then Some(Made(FileName(rolls[i], r.value.name), r.value)) else None;
  }

  /** generate_reports' loop over the rolls. */
  method GenerateIndividuals(files: seq<Entry<string, Doc>>, rolls: seq<Cell>, subjects: seq<Subject>, roster: Option<Table>, opts: Options)
    returns (b: Batch)
    requires HasRolls(subjects) && (roster.Some? ==> Valid(roster.value))
    ensures b == Individuals(files, rolls, IndividualReports(rolls, subjects, roster, opts))
  {
    ghost var reps := IndividualReports(rolls, subjects, roster, opts);
    b := Batch(files, []);
    IndividualsPrefix(files, rolls, reps, 0);
    for i := 0 to |rolls|
      invariant b == Individuals(files, rolls[..i], reps[..i])
    {
      var rep := GenerateOne(rolls, i, subjects, roster, opts);
      IndividualsPrefix(files, rolls, reps, i + 1);
      if rep.Some? {
        var m := rep.value;
        b := Batch(Put(b.files, m.filename, Single(m.report)), Put(b.links, rolls[i], Link(m.filename, m.report.name)));
      }
    }
    IndividualsPrefix(files, rolls, reps, |rolls|);
  }

  /** Individuals over the first i rolls. */
  lemma IndividualsPrefix(files: seq<Entry<string, Doc>>, rolls: seq<Cell>, reps: seq<Option<Made>>, i: nat)
    requires |rolls| == |reps| && i <= |rolls|
    ensures i == 0 ==> Individuals(files, rolls[..i], reps[..i]) == Batch(files, [])
    ensures i == |rolls| ==> rolls[..i] == rolls && reps[..i] == reps
    ensures 0 < i ==> Individuals(files, rolls[..i], reps[..i])
                      == Store(Individuals(files, rolls[..i - 1], reps[..i - 1]), rolls[i - 1], reps[i - 1])
  {
    if 0 < i {
      assert rolls[..i][..i - 1] == rolls[..i - 1] && reps[..i][..i - 1] == reps[..i - 1];
    }
  }

  /** The documents generate_reports leaves and its answer: documents accumulate over
      calls, an equal file name replacing its document. */
  function Generation(generated: seq<Entry<string, Doc>>, subjects: seq<Subject>, allStudents: seq<Cell>, roster: Option<Table>,
                      students: seq<string>, opts: Options, stamp: string): (g: (seq<Entry<string, Doc>>, Result<Generated, HttpError>))
    requires HasRolls(subjects) && (roster.Some? ==> Valid(roster.value))
    ensures g.1.Err? ==> g.0 == generated
    ensures subjects == [] ==> g.1 == Err(BadRequest("No subject data uploaded. Please upload subject files first."))
    ensures subjects != [] && Targets(students, allStudents) == [] ==> g.1 == Err(BadRequest("No students to generate reports for."))
  {
    if subjects == [] then (generated, Err(BadRequest("No subject data uploaded. Please upload subject files first.")))
    else
      var rolls := Targets(students, allStudents);
      if rolls == [] then (generated, Err(BadRequest("No students to generate reports for.")))
      else
        var b := Individuals(generated, rolls, IndividualReports(rolls, subjects, roster, opts));
        var pages := Gather(Pages(rolls, subjects, roster, opts));
        (WithConsolidated(b.files, pages, stamp),
         Ok(Generated("Generated reports for " + NatStr(|b.links|) + " students", b.links,
                      if pages.Ok? then Some(ConsolidatedName(stamp)) else None, |b.links|)))
  }

  // ---------------------------------------------------------------------------
  // The store

  /** The module-level `generated_reports` dict. */
  class ReportStore {
    var generated: seq<Entry<string, Doc>>

    ghost predicate Valid()
      reads this
    {
      UniqueKeys(generated)
    }

    constructor()
      ensures generated == [] && Valid()
    {
      generated := [];
    }

    /** generate_reports: the documents it leaves and its answer are Generation's. */
    method Generate(uploads: UploadStore, students: seq<string>, opts: Options, stamp: string)
      returns (r: Result<Generated, HttpError>)
      requires Valid() && uploads.Consistent()
      modifies this
      ensures Valid()
      ensures HasRolls(uploads.subjects)
      ensures (generated, r) == Generation(old(generated), uploads.subjects, uploads.allStudents, uploads.backlog, students, opts, stamp)
    {
      var subjects := uploads.subjects;
      var roster := uploads.backlog;
      IngestedRolls(subjects);
      if subjects == [] {
        return Err(BadRequest("No subject data uploaded. Please upload subject files first."));
      }
      var rolls := Targets(students, uploads.allStudents);
      if rolls == [] {
        return Err(BadRequest("No students to generate reports for."));
      }
      var b := GenerateIndividuals(generated, rolls, subjects, roster, opts);
      var pages := CreateConsolidated(rolls, subjects, roster, opts);
      GenerationSound(generated, subjects, uploads.allStudents, roster, students, opts, stamp);
      generated := WithConsolidated(b.files, pages, stamp);
      r := Ok(Generated("Generated reports for " + NatStr(|b.links|) + " students", b.links,
                        if pages.Ok? then Some(ConsolidatedName(stamp)) else None, |b.links|));
    }

    /** download_report */
    function Download(filename: string): (r: Result<Doc, HttpError>)
      reads this
      ensures r.Ok? <==> filename in KeysOf(generated)
      ensures r.Err? ==> r.error == NotFound("Report not found. Please generate reports first.")
      ensures r.Ok? ==> Entry(filename, r.value) in generated
    {
      match Find(generated, filename)
      case None => Err(NotFound("Report not found. Please generate reports first."))
      case Some(doc) => Ok(doc)
    }

    /** download_all_as_zip: the archive's members, one per document in insertion order. */
    function Zip(): (r: Result<seq<Entry<string, Doc>>, HttpError>)
      reads this
      ensures r.Err? <==> generated == []
      ensures r.Err? ==> r.error == NotFound("No reports generated. Please generate reports first.")
      ensures r.Ok? ==> r.value == generated
    {
      if generated == [] then Err(NotFound("No reports generated. Please generate reports first."))
      else Ok(generated)
    }

    /** list_generated_reports: the names and their count. */
    function List(): (r: (seq<string>, nat))
      reads this
      ensures r.1 == |r.0| == |generated|
      ensures forall i :: 0 <= i < |r.0| ==> r.0[i] == generated[i].key
    {
      (KeysOf(generated), |generated|)
    }

    /** clear_generated_reports */
    method Clear()
      modifies this
      ensures generated == [] && Valid()
      ensures List() == ([], 0) && Zip().Err?
    {
      generated := [];
    }

    /** get_report_preview_html without the DOCX-to-HTML conversion: the first document, in
        insertion order, whose name starts with the roll number as typed. */
    method PreviewDocument(uploads: UploadStore, rollNo: string) returns (r: Result<Entry<string, Doc>, HttpError>)
      ensures uploads.subjects == [] ==> r == Err(BadRequest("No subject data uploaded"))
      ensures uploads.subjects != [] ==> r == PreviewOf(generated, rollNo)
    {
      if uploads.subjects == [] {
        return Err(BadRequest("No subject data uploaded"));
      }
      var i := 0;
      var found: Option<nat> := None;
      while i < |generated|
        invariant 0 <= i <= |generated|
        invariant found.None? ==> forall j :: 0 <= j < i ==> !StartsWith(generated[j].key, rollNo)
        invariant found.Some? ==> found == FirstPrefixed(generated, rollNo)
        decreases if found.Some? then 0 else |generated| - i
      {
        if StartsWith(generated[i].key, rollNo) {
          found := Some(i);
          FirstPrefixedAt(generated, rollNo, i);
          break;
        }
        i := i + 1;
      }
      if found.None? {
        FirstPrefixedNone(generated, rollNo);
      }
      if found.None? || generated[found.value].key == "" {
        r := Err(NotFound("No report generated for student " + rollNo));
      } else {
        r := Ok(generated[found.value]);
      }
    }
  }

  /** The position of the first name starting with p. */
  function FirstPrefixed(d: seq<Entry<string, Doc>>, p: string): (r: Option<nat>)
    ensures r.Some? ==> r.value < |d| && StartsWith(d[r.value].key, p)
                        && forall j :: 0 <= j < r.value ==> !StartsWith(d[j].key, p)
    ensures r.None? <==> forall j :: 0 <= j < |d| ==> !StartsWith(d[j].key, p)
  {
    if d == [] then None
    else if StartsWith(d[0].key, p) then Some(0)
    else
      var r := FirstPrefixed(d[1..], p);
      assert forall j :: 1 <= j < |d| ==> d[j] == d[1..][j - 1];
      if r.None? then None else Some(r.value + 1)
  }

  /** What the preview finds: `if not matching_file` also refuses an empty name. */
  function PreviewOf(d: seq<Entry<string, Doc>>, rollNo: string): (r: Result<Entry<string, Doc>, HttpError>)
    ensures r.Err? ==> r.error == NotFound("No report generated for student " + rollNo)
    ensures r.Ok? ==> r.value in d && r.value.key != "" && StartsWith(r.value.key, rollNo)
  {
    var k := FirstPrefixed(d, rollNo);
    if k.None? || d[k.value].key == "" then Err(NotFound("No report generated for student " + rollNo))
    else Ok(d[k.value])
  }

  lemma FirstPrefixedAt(d: seq<Entry<string, Doc>>, p: string, i: nat)
    requires i < |d| && StartsWith(d[i].key, p)
    requires forall j :: 0 <= j < i ==> !StartsWith(d[j].key, p)
    ensures FirstPrefixed(d, p) == Some(i)
  {
    var r := FirstPrefixed(d, p);
    assert r.Some?;
  }

  lemma FirstPrefixedNone(d: seq<Entry<string, Doc>>, p: string)
    requires forall j :: 0 <= j < |d| ==> !StartsWith(d[j].key, p)
    ensures FirstPrefixed(d, p).None?
  {
  }

  // ---------------------------------------------------------------------------
  // Properties of generate_reports

  /** Names stay unique: the documents and the links are dicts. */
  lemma {:induction false} IndividualsUnique(files: seq<Entry<string, Doc>>, rolls: seq<Cell>, reps: seq<Option<Made>>)
    requires |rolls| == |reps| && UniqueKeys(files)
    ensures UniqueKeys(Individuals(files, rolls, reps).files)
    ensures UniqueKeys(Individuals(files, rolls, reps).links)
  {
    if rolls != [] {
      var n := |rolls| - 1;
      var b := Individuals(files, rolls[..n], reps[..n]);
      IndividualsUnique(files, rolls[..n], reps[..n]);
      if reps[n].Some? {
        var m := reps[n].value;
        PutUnique(b.files, m.filename, Single(m.report));
        PutUnique(b.links, rolls[n], Link(m.filename, m.report.name));
      }
    }
  }

  /** A roll is linked exactly when it was requested and its report was generated. */
  lemma {:induction false} LinkedRolls(files: seq<Entry<string, Doc>>, rolls: seq<Cell>, reps: seq<Option<Made>>, k: Cell)
    requires |rolls| == |reps|
    ensures Find(Individuals(files, rolls, reps).links, k).Some?
            <==> exists i :: 0 <= i < |rolls| && rolls[i] == k && reps[i].Some?
  {
    if rolls != [] {
      var n := |rolls| - 1;
      var b := Individuals(files, rolls[..n], reps[..n]);
      LinkedRolls(files, rolls[..n], reps[..n], k);
      if reps[n].Some? {
        PutFind(b.links, rolls[n], Link(reps[n].value.filename, reps[n].value.report.name), k);
      }
      if exists i :: 0 <= i < |rolls| && rolls[i] == k && reps[i].Some? {
        var i :| 0 <= i < |rolls| && rolls[i] == k && reps[i].Some?;
        if i < n {
          assert rolls[..n][i] == k && reps[..n][i].Some?;
        }
      }
    }
  }

  /** A name is stored exactly when it was stored before or names a generated report. */
  lemma {:induction false} StoredNames(files: seq<Entry<string, Doc>>, rolls: seq<Cell>, reps: seq<Option<Made>>, k: string)
    requires |rolls| == |reps|
    ensures Find(Individuals(files, rolls, reps).files, k).Some?
            <==> Find(files, k).Some? || exists i :: 0 <= i < |rolls| && reps[i].Some? && reps[i].value.filename == k
  {
    if rolls != [] {
      var n := |rolls| - 1;
      var b := Individuals(files, rolls[..n], reps[..n]);
      StoredNames(files, rolls[..n], reps[..n], k);
      if reps[n].Some? {
        PutFind(b.files, reps[n].value.filename, Single(reps[n].value.report), k);
      }
      if exists i :: 0 <= i < |rolls| && reps[i].Some? && reps[i].value.filename == k {
        var i :| 0 <= i < |rolls| && reps[i].Some? && reps[i].value.filename == k;
        if i < n {
          assert rolls[..n][i] == rolls[i] && reps[..n][i] == reps[i];
        }
      }
    }
  }

  /** Every linked file name can be downloaded: a later report may replace the document
      under that name, never remove it. */
  lemma {:induction false} LinksDownloadable(files: seq<Entry<string, Doc>>, rolls: seq<Cell>, reps: seq<Option<Made>>)
    requires |rolls| == |reps|
    ensures Downloadable(Individuals(files, rolls, reps))
  {
    if rolls != [] {
      var n := |rolls| - 1;
      var b := Individuals(files, rolls[..n], reps[..n]);
      LinksDownloadable(files, rolls[..n], reps[..n]);
      if reps[n].Some? {
        var m := reps[n].value;
        var b' := Store(b, rolls[n], reps[n]);
        PutEntries(b.links, rolls[n], Link(m.filename, m.report.name));
        forall j | 0 <= j < |b'.links|
          ensures Find(b'.files, b'.links[j].val.filename).Some?
        {
          var g := b'.links[j].val.filename;
          PutFind(b.files, m.filename, Single(m.report), g);
          if b'.links[j] != Entry(rolls[n], Link(m.filename, m.report.name)) {
            var i :| 0 <= i < |b.links| && b.links[i] == b'.links[j];
            assert Find(b.files, b.links[i].val.filename).Some?;
          }
        }
      }
    }
  }

  /** Every link names a stored document. */
  predicate Downloadable(b: Batch) {
    forall j :: 0 <= j < |b.links| ==> Find(b.files, b.links[j].val.filename).Some?
  }

  /** The links do not depend on the documents stored before. */
  lemma {:induction false} LinksIgnoreFiles(files: seq<Entry<string, Doc>>, rolls: seq<Cell>, reps: seq<Option<Made>>)
    requires |rolls| == |reps|
    ensures Individuals(files, rolls, reps).links == Individuals([], rolls, reps).links
  {
    if rolls != [] {
      var n := |rolls| - 1;
      LinksIgnoreFiles(files, rolls[..n], reps[..n]);
    }
  }

  /** total_generated is the number of distinct requested students whose report was
      generated: a roll requested twice counts once. */
  lemma TotalCountsStudents(files: seq<Entry<string, Doc>>, rolls: seq<Cell>, reps: seq<Option<Made>>)
    requires |rolls| == |reps|
    ensures |Individuals(files, rolls, reps).links| == |set i | 0 <= i < |rolls| && reps[i].Some? :: rolls[i]|
  {
    var links := Individuals(files, rolls, reps).links;
    LinksIgnoreFiles(files, rolls, reps);
    IndividualsUnique([], rolls, reps);
    KeyCount(links);
    var s := set i | 0 <= i < |links| :: links[i].key;
    var t := set i | 0 <= i < |rolls| && reps[i].Some? :: rolls[i];
    forall x
      ensures x in s <==> x in t
    {
      LinkedRolls(files, rolls, reps, x);
      if x in t {
        var i :| 0 <= i < |rolls| && reps[i].Some? && rolls[i] == x;
      }
    }
    assert s == t;
  }

  /** After generate_reports, every file named in its response can be downloaded, the
      consolidated document included. */
  lemma GeneratedDownloadable(files: seq<Entry<string, Doc>>, rolls: seq<Cell>, reps: seq<Option<Made>>,
                              pages: Result<seq<Option<ReportData>>, string>, stamp: string)
    requires |rolls| == |reps|
    ensures var b := Individuals(files, rolls, reps);
            var stored := WithConsolidated(b.files, pages, stamp);
            && (forall j :: 0 <= j < |b.links| ==> Find(stored, b.links[j].val.filename).Some?)
            && (pages.Ok? ==> Find(stored, ConsolidatedName(stamp)) == Some(Consolidated(pages.value)))
  {
    var b := Individuals(files, rolls, reps);
    LinksDownloadable(files, rolls, reps);
    if pages.Ok? {
      var c := ConsolidatedName(stamp);
      var stored := Put(b.files, c, Consolidated(pages.value));
      PutFind(b.files, c, Consolidated(pages.value), c);
      forall j | 0 <= j < |b.links|
        ensures Find(stored, b.links[j].val.filename).Some?
      {
        PutFind(b.files, c, Consolidated(pages.value), b.links[j].val.filename);
        assert Find(b.files, b.links[j].val.filename).Some?;
      }
    }
  }

  /** What generate_reports promises: the documents stay a dict, every file named in the
      answer can be downloaded, and total_generated counts the distinct requested students
      whose report was generated. */
  lemma GenerationSound(generated: seq<Entry<string, Doc>>, subjects: seq<Subject>, allStudents: seq<Cell>, roster: Option<Table>,
                        students: seq<string>, opts: Options, stamp: string)
    requires HasRolls(subjects) && (roster.Some? ==> Valid(roster.value)) && UniqueKeys(generated)
    ensures var g := Generation(generated, subjects, allStudents, roster, students, opts, stamp);
            var rolls := Targets(students, allStudents);
            var reps := IndividualReports(rolls, subjects, roster, opts);
            && UniqueKeys(g.0)
            && (g.1.Ok? ==>
                  && (forall j :: 0 <= j < |g.1.value.reports| ==> Find(g.0, g.1.value.reports[j].val.filename).Some?)
                  && (g.1.value.consolidated.Some? ==> Find(g.0, g.1.value.consolidated.value).Some?)
                  && g.1.value.total == |set i | 0 <= i < |rolls| && reps[i].Some? :: rolls[i]|)
  {
    var rolls := Targets(students, allStudents);
    if subjects != [] && rolls != [] {
      var reps := IndividualReports(rolls, subjects, roster, opts);
      var b := Individuals(generated, rolls, reps);
      var pages := Gather(Pages(rolls, subjects, roster, opts));
      IndividualsUnique(generated, rolls, reps);
      if pages.Ok? {
        PutUnique(b.files, ConsolidatedName(stamp), Consolidated(pages.value));
      }
      GeneratedDownloadable(generated, rolls, reps, pages, stamp);
      TotalCountsStudents(generated, rolls, reps);
    }
  }

  // ---------------------------------------------------------------------------
  // Properties of the preview lookup

  /** The lookup is a prefix match on the name: with the report of roll p + s stored first,
      the preview for roll p shows that other student's report. */
  lemma PreviewCrossesStudents(p: string, s: string, n1: string, n2: string, d1: Doc, d2: Doc)
    ensures var first := Entry(FileName(Text(p + s), n1), d1);
            PreviewOf([first, Entry(FileName(Text(p), n2), d2)], p) == Ok(first)
  {
    var first := Entry(FileName(Text(p + s), n1), d1);
    var d := [first, Entry(FileName(Text(p), n2), d2)];
    assert StartsWith(p + s, p) by {
      assert (p + s)[..|p|] == p;
    }
    assert StartsWith(first.key, p) by {
      assert first.key[..|p|] == (p + s)[..|p|];
    }
    FirstPrefixedAt(d, p, 0);
  }

  /** A report generated for a roll typed as text is found by its own roll number (a
      roll number, being a path segment, is never empty). */
  lemma PreviewFindsOwnReport(d: seq<Entry<string, Doc>>, rollNo: string, name: string)
    requires rollNo != [] && Find(d, FileName(Text(rollNo), name)).Some?
    ensures PreviewOf(d, rollNo).Ok?
  {
    var f := FileName(Text(rollNo), name);
    assert StartsWith(f, rollNo);
    var i :| 0 <= i < |d| && d[i].key == f;
    assert FirstPrefixed(d, rollNo).Some?;
  }
}
