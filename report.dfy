/** The values create_comprehensive_student_report and create_consolidated_all_students_report
    put on a progress report: the marks table, its totals and percentages, the attendance
    status and the backlog block. The python-docx calls around them are not modelled; a
    report is the ReportData record of what it displays. */
module Report {
  import opened Cells
  import opened Tables
  import opened Dicts
  import opened Ingest
  import opened Reconcile

  // ---------------------------------------------------------------------------
  // Theory subjects first, then labs

  /** `s.get('is_lab', False)` in a boolean position (is_lab defaults to False). */
  predicate IsLab(e: SubjectEntry) {
    Truthy(e.isLab)
  }

  /** The sort key of the report: 0 for a theory subject, 1 for a lab. */
  function SortKey(e: SubjectEntry): (k: int)
    ensures k == 0 || k == 1
  {
    if IsLab(e) then 1 else 0
  }

  /** The theory subjects of s, in order. */
  function Theory(s: seq<SubjectEntry>): (r: seq<SubjectEntry>)
    ensures |r| <= |s|
    ensures forall i :: 0 <= i < |r| ==> !IsLab(r[i])
  {
    if s == [] then []
    else Theory(s[..|s| - 1]) + if IsLab(s[|s| - 1]) then [] else [s[|s| - 1]]
  }

  /** The lab subjects of s, in order. */
  function Labs(s: seq<SubjectEntry>): (r: seq<SubjectEntry>)
    ensures |r| <= |s|
    ensures forall i :: 0 <= i < |r| ==> IsLab(r[i])
  {
    if s == [] then []
    else Labs(s[..|s| - 1]) + if IsLab(s[|s| - 1]) then [s[|s| - 1]] else []
  }

  /** `sorted(subjects, key=lambda s: 1 if s.get('is_lab', False) else 0)`: Python's sort is
      stable, so the theory subjects keep their order and so do the labs. */
  function TheoryFirst(s: seq<SubjectEntry>): (r: seq<SubjectEntry>)
    ensures forall i, j :: 0 <= i < j < |r| ==> SortKey(r[i]) <= SortKey(r[j])
  {
    Theory(s) + Labs(s)
  }

  /** Sorting loses and adds nothing. */
  lemma {:induction false} TheoryFirstPermutes(s: seq<SubjectEntry>)
    ensures multiset(TheoryFirst(s)) == multiset(s)
  {
    if s != [] {
      var p := s[..|s| - 1];
      TheoryFirstPermutes(p);
      assert s == p + [s[|s| - 1]];
    }
  }

  lemma {:induction false} TheoryOfConcat(a: seq<SubjectEntry>, b: seq<SubjectEntry>)
    ensures Theory(a + b) == Theory(a) + Theory(b)
    decreases |b|
  {
    if b == [] {
      assert a + b == a;
    } else {
      var q := b[..|b| - 1];
      var x := b[|b| - 1];
      var tail := (if IsLab(x) then [] else [x]);
      TheoryOfConcat(a, q);
      assert (a + b)[..|a + b| - 1] == a + q;
      assert (a + b)[|a + b| - 1] == x;
      assert Theory(a + b) == Theory(a + q) + tail;
      assert Theory(b) == Theory(q) + tail;
      assert Theory(a) + Theory(q) + tail == Theory(a) + (Theory(q) + tail);
    }
  }

  lemma {:induction false} LabsOfConcat(a: seq<SubjectEntry>, b: seq<SubjectEntry>)
    ensures Labs(a + b) == Labs(a) + Labs(b)
    decreases |b|
  {
    if b == [] {
      assert a + b == a;
    } else {
      var q := b[..|b| - 1];
      var x := b[|b| - 1];
      var tail := (if IsLab(x) then [x] else []);
      LabsOfConcat(a, q);
      assert (a + b)[..|a + b| - 1] == a + q;
      assert (a + b)[|a + b| - 1] == x;
      assert Labs(a + b) == Labs(a + q) + tail;
      assert Labs(b) == Labs(q) + tail;
      assert Labs(a) + Labs(q) + tail == Labs(a) + (Labs(q) + tail);
    }
  }

  lemma {:induction false} FiltersIdempotent(s: seq<SubjectEntry>)
    ensures Theory(Theory(s)) == Theory(s) && Labs(Theory(s)) == []
    ensures Labs(Labs(s)) == Labs(s) && Theory(Labs(s)) == []
  {
    if s != [] {
      var p := s[..|s| - 1];
      var x := s[|s| - 1];
      FiltersIdempotent(p);
      TheoryOfConcat(Theory(p), if IsLab(x) then [] else [x]);
      LabsOfConcat(Theory(p), if IsLab(x) then [] else [x]);
      TheoryOfConcat(Labs(p), if IsLab(x) then [x] else []);
      LabsOfConcat(Labs(p), if IsLab(x) then [x] else []);
      assert Theory([x]) == Theory([]) + if IsLab(x) then [] else [x];
      assert Labs([x]) == Labs([]) + if IsLab(x) then [x] else [];
    }
  }

  /** The sort is stable: the theory subjects of the result are those of the input in the
      same order, and likewise the labs. */
  lemma TheoryFirstStable(s: seq<SubjectEntry>)
    ensures Theory(TheoryFirst(s)) == Theory(s)
    ensures Labs(TheoryFirst(s)) == Labs(s)
  {
    TheoryOfConcat(Theory(s), Labs(s));
    LabsOfConcat(Theory(s), Labs(s));
    FiltersIdempotent(s);
  }

  // ---------------------------------------------------------------------------
  // One subject

  /** The "AB" sentinel of a theory component: a string whose stripped lower-case form is "ab". */
  predicate IsAb(v: Cell) {
    v.Text? && Lower(Trim(v.s)) == "ab"
  }

  /** A theory component's contribution: 0 when AB, float(v) otherwise; None where float()
      raises. */
  function Component(v: Cell): (n: Option<Num>)
    ensures IsAb(v) ==> n == Some(IntNum(0))
    ensures !IsAb(v) ==> (n.Some? <==> ToFloat(v).Some?)
    ensures !IsAb(v) && n.Some? ==> n.value == FloatNum(ToFloat(v).value)
  {
    if IsAb(v) then Some(IntNum(0))
    else match ToFloat(v)
      case Some(x) => Some(FloatNum(x))
      case None => None
  }

  /** The DT, ST and AT contributions of a theory subject. The three float() calls share one
      try block, so when any of them raises all three contributions are 0. */
  function TheoryValues(e: SubjectEntry): (v: (Num, Num, Num))
  {
    match (Component(e.dt), Component(e.st), Component(e.at))
    case (Some(d), Some(s), Some(a)) => (d, s, a)
    case _ => (IntNum(0), IntNum(0), IntNum(0))
  }

  /** `dt + st + at` */
  function TheoryTotal(e: SubjectEntry): Num {
    var v := TheoryValues(e);
    Add(Add(v.0, v.1), v.2)
  }

  /** `(v != 0) if not isinstance(v, str) else True`: any string counts as a lab mark, a
      number only when it is not 0. */
  predicate HasLabMark(v: Cell) {
    v.Text? || !PyEq(v, Int(0))
  }

  /** What a lab mark counts as. */
  datatype LabMark = NoMark | Absent | Scored(x: real) | Unparsed

  function LabOf(v: Cell): (m: LabMark)
    ensures m == NoMark <==> !HasLabMark(v)
    ensures m == Absent <==> HasLabMark(v) && Lower(Trim(ToStr(v))) == "ab"
    ensures m.Scored? <==> HasLabMark(v) && Lower(Trim(ToStr(v))) != "ab" && ToFloat(v).Some?
    ensures m.Scored? ==> ToFloat(v) == Some(m.x)
  {
    if !HasLabMark(v) then NoMark
    else if Lower(Trim(ToStr(v))) == "ab" then Absent
    else match ToFloat(v)
      case Some(x) => Scored(x)
      case None => Unparsed
  }

  /** The marks cells of one table row: four for a theory subject, one merged cell for a lab. */
  datatype Marks = TheoryMarks(dt: string, st: string, at: string, total: string) | LabMarks(mark: string)

  datatype Row = Row(sno: string, course: string, conducted: string, present: string, marks: Marks)

  /** The merged marks cell of a lab row. */
  function LabText(v: Cell): (t: string)
    ensures LabOf(v) == NoMark ==> t == "-"
    ensures LabOf(v) == Absent ==> t == "AB"
    ensures LabOf(v).Scored? ==> t == IntStr(Round(LabOf(v).x))
    ensures LabOf(v) == Unparsed ==> t == ToStr(v)
  {
    match LabOf(v)
    case NoMark => "-"
    case Absent => "AB"
    case Scored(x) => IntStr(Round(x))
    case Unparsed => ToStr(v)
  }

  /** The four marks cells of a theory row: DT and the total rounded, ST and AT as str(). */
  function TheoryText(e: SubjectEntry): (m: Marks)
    ensures m.TheoryMarks?
    ensures m.total == IntStr(Round(NumValue(TheoryTotal(e))))
  {
    var v := TheoryValues(e);
    TheoryMarks(
      if IsAb(e.dt) then "AB" else IntStr(Round(NumValue(v.0))),
      if IsAb(e.st) then "AB" else NumStr(v.1),
      if IsAb(e.at) then "AB" else NumStr(v.2),
      IntStr(Round(NumValue(TheoryTotal(e)))))
  }

  /** The table row of the subject at position idx of the sorted list. */
  function RowOf(idx: nat, e: SubjectEntry): (r: Row)
    ensures r.sno == IntStr(idx + 1)
    ensures r.marks.LabMarks? <==> IsLab(e)
  {
    Row(IntStr(idx + 1), e.subject, ToStr(e.conducted), ToStr(e.present),
        if IsLab(e) then LabMarks(LabText(e.lab)) else TheoryText(e))
  }

  // ---------------------------------------------------------------------------
  // The accumulators

  /** The five accumulators of the aggregation loop. */
  datatype Totals = Totals(conducted: Num, present: Num, sum: Num, theoryMax: int, labsWithMarks: int)

  /** Both attendance values can be added with `+=`: each is a number or a boolean. */
  predicate Countable(e: SubjectEntry) {
    (e.conducted.Int? || e.conducted.Float? || e.conducted.Bool?) &&
    (e.present.Int? || e.present.Float? || e.present.Bool?)
  }

  /** The attendance `+=` of one iteration; None where Python raises a TypeError. */
  function AddAttendance(a: (Num, Num), e: SubjectEntry): (r: Option<(Num, Num)>)
    ensures r.Some? <==> Countable(e)
    ensures r.Some? ==> NumValue(r.value.0) == NumValue(a.0) + ToFloat(e.conducted).value
    ensures r.Some? ==> NumValue(r.value.1) == NumValue(a.1) + ToFloat(e.present).value
  {
    match (ToNumber(e.conducted), ToNumber(e.present))
    case (Some(c), Some(p)) => Some((Add(a.0, c), Add(a.1, p)))
    case _ => None
  }

  /** The attendance sums over es; None once a `+=` has raised. */
  function Attendance(es: seq<SubjectEntry>): Option<(Num, Num)>
  {
    if es == [] then Some((IntNum(0), IntNum(0)))
    else match Attendance(es[..|es| - 1])
      case None => None
      case Some(a) => AddAttendance(a, es[|es| - 1])
  }

  /** The marks accumulators: the marks obtained, 40 per theory subject, the labs counted. */
  datatype MarkSums = MarkSums(sum: Num, theoryMax: int, labsWithMarks: int)

  /** The marks part of one iteration: a theory subject adds its total and 40 to the maximum;
      a lab adds its mark and is counted when the mark is AB or a number. */
  function AddMarks(m: MarkSums, e: SubjectEntry): (r: MarkSums)
    ensures r.theoryMax == m.theoryMax + (if IsLab(e) then 0 else 40)
    ensures r.labsWithMarks == m.labsWithMarks + (if IsLab(e) && (LabOf(e.lab).Scored? || LabOf(e.lab) == Absent) then 1 else 0)
  {
    if IsLab(e) then
      match LabOf(e.lab)
      case Scored(x) => MarkSums(Add(m.sum, FloatNum(x)), m.theoryMax, m.labsWithMarks + 1)
      case Absent => MarkSums(m.sum, m.theoryMax, m.labsWithMarks + 1)
      case _ => m
    else
      MarkSums(Add(m.sum, TheoryTotal(e)), m.theoryMax + 40, m.labsWithMarks)
  }

  /** The marks accumulators over es. */
  function MarksOf(es: seq<SubjectEntry>): MarkSums
  {
    if es == [] then MarkSums(IntNum(0), 0, 0)
    else AddMarks(MarksOf(es[..|es| - 1]), es[|es| - 1])
  }

  /** The accumulators after the loop has run over es; None when some `+=` raised, which
      aborts the report whatever the marks are. */
  function Accumulate(es: seq<SubjectEntry>): (r: Option<Totals>)
    ensures r.Some? <==> Attendance(es).Some?
  {
    match Attendance(es)
    case None => None
    case Some(a) =>
      var m := MarksOf(es);
      Some(Totals(a.0, a.1, m.sum, m.theoryMax, m.labsWithMarks))
  }

  /** Once a `+=` has raised, the loop fails whatever follows. */
  lemma {:induction false} AttendanceFails(es: seq<SubjectEntry>, n: nat)
    requires n <= |es| && Attendance(es[..n]).None?
    ensures Attendance(es).None?
    decreases |es| - n
  {
    if n < |es| {
      assert es[..n + 1][..n] == es[..n];
      AttendanceFails(es, n + 1);
    } else {
      assert es[..n] == es;
    }
  }

  /** The loop succeeds exactly when every subject's attendance values are numbers. */
  lemma {:induction false} AttendanceSucceeds(es: seq<SubjectEntry>)
    ensures Attendance(es).Some? <==> forall i :: 0 <= i < |es| ==> Countable(es[i])
  {
    if es != [] {
      var p := es[..|es| - 1];
      AttendanceSucceeds(p);
      assert forall i :: 0 <= i < |p| ==> p[i] == es[i];
    }
  }

  /** The labs of s that count towards the maximum: those whose mark is AB or a number. */
  function MarkedLabs(s: seq<SubjectEntry>): (r: seq<SubjectEntry>)
    ensures |r| <= |Labs(s)|
  {
    if s == [] then []
    else
      var x := s[|s| - 1];
      MarkedLabs(s[..|s| - 1]) + if IsLab(x) && (LabOf(x.lab).Scored? || LabOf(x.lab) == Absent) then [x] else []
  }

  /** The maximum counts 40 for every theory subject, AB or not, and the labs with a mark. */
  lemma {:induction false} MarksCounts(es: seq<SubjectEntry>)
    ensures MarksOf(es).theoryMax == 40 * |Theory(es)|
    ensures MarksOf(es).labsWithMarks == |MarkedLabs(es)|
  {
    if es != [] {
      MarksCounts(es[..|es| - 1]);
    }
  }

  /** The table rows of the sorted subjects, numbered from 1. */
  function Rows(es: seq<SubjectEntry>): (rows: seq<Row>)
    ensures |rows| == |es|
    ensures forall i :: 0 <= i < |es| ==> rows[i] == RowOf(i, es[i])
  {
    seq(|es|, i requires 0 <= i < |es| => RowOf(i, es[i]))
  }

  /** The aggregation loop of the report over the sorted subjects. */
  method Aggregate(es: seq<SubjectEntry>) returns (r: Option<(Totals, seq<Row>)>)
    ensures r.None? <==> Accumulate(es).None?
    ensures r.Some? ==> r.value.0 == Accumulate(es).value && r.value.1 == Rows(es)
  {
    var a := (IntNum(0), IntNum(0));
    var m := MarkSums(IntNum(0), 0, 0);
    var rows: seq<Row> := [];
    for n := 0 to |es|
      invariant Attendance(es[..n]) == Some(a)
      invariant MarksOf(es[..n]) == m
      invariant MapsTo(rows, es, n, RowOf)
    {
      AggregateStep(es, n);
      var next := AddAttendance(a, es[n]);
      if next.None? {
        AttendanceFails(es, n + 1);
        return None;
      }
      a := next.value;
      m := AddMarks(m, es[n]);
      MapsToStep(rows, es, n, RowOf);
      rows := rows + [RowOf(n, es[n])];
    }
    assert es[..|es|] == es;
    r := Some((Totals(a.0, a.1, m.sum, m.theoryMax, m.labsWithMarks), rows));
  }

  /** One iteration of the loop is one more step of each fold. */
  lemma AggregateStep(es: seq<SubjectEntry>, n: nat)
    requires n < |es|
    ensures Attendance(es[..n + 1]) == if Attendance(es[..n]).None? then None else AddAttendance(Attendance(es[..n]).value, es[n])
    ensures MarksOf(es[..n + 1]) == AddMarks(MarksOf(es[..n]), es[n])
  {
    assert es[..n + 1][..n] == es[..n];
  }

  // ---------------------------------------------------------------------------
  // Totals, percentages and the status

  /** The maximum marks: 40 per theory subject and 25 per lab with a mark. */
  function MaxMarks(t: Totals): int {
    t.theoryMax + t.labsWithMarks * 25
  }

  /** The attendance percentage; 0 when no class (or a negative count) was conducted. */
  function AttendancePercent(t: Totals): (p: real)
    ensures NumValue(t.conducted) <= 0.0 ==> p == 0.0
    ensures NumValue(t.conducted) > 0.0 ==> p * NumValue(t.conducted) == NumValue(t.present) * 100.0
  {
    if NumValue(t.conducted) > 0.0 then NumValue(t.present) / NumValue(t.conducted) * 100.0 else 0.0
  }

  /** The marks percentage; None (shown as "-") when the maximum is 0. */
  function MarksPercent(t: Totals): (p: Option<real>)
    ensures p.None? <==> MaxMarks(t) <= 0
    ensures p.Some? ==> p.value * (MaxMarks(t) as real) == NumValue(t.sum) * 100.0
  {
    if MaxMarks(t) > 0 then Some(NumValue(t.sum) / (MaxMarks(t) as real) * 100.0) else None
  }

  /** The marks cell of the TOTAL row: the rounded sum, or empty when the maximum is 0. */
  function TotalCell(t: Totals): (s: string)
    ensures MaxMarks(t) <= 0 ==> s == ""
    ensures MaxMarks(t) > 0 ==> s == IntStr(Round(NumValue(t.sum)))
  {
    if MaxMarks(t) > 0 then IntStr(Round(NumValue(t.sum))) else ""
  }

  function Status(attendance: real): string {
    if attendance < 75.0 then "Poor" else "Satisfactory"
  }

  /** The status is "Poor" exactly when fewer than 75 of every 100 conducted classes were
      attended, and also when nothing was conducted. */
  lemma PoorIff(t: Totals)
    ensures Status(AttendancePercent(t)) == "Poor" <==>
              NumValue(t.conducted) <= 0.0 || NumValue(t.present) * 100.0 < 75.0 * NumValue(t.conducted)
  {
    var c := NumValue(t.conducted);
    var p := NumValue(t.present);
    if c > 0.0 {
      var a := AttendancePercent(t);
      assert a * c == p * 100.0;
      ScaleBelow(a, 75.0, c);
    }
  }

  lemma ScaleBelow(x: real, y: real, c: real)
    requires c > 0.0
    ensures x < y <==> x * c < y * c
  {
    if x < y {
      assert (y - x) * c > 0.0;
    } else {
      assert (x - y) * c >= 0.0;
    }
  }

  /** Marks % is "-" and the TOTAL cell empty exactly when there is no theory subject and no
      lab with a mark. */
  lemma NoMaximumIff(es: seq<SubjectEntry>)
    requires Accumulate(es).Some?
    ensures MarksPercent(Accumulate(es).value).None? <==> Theory(es) == [] && MarkedLabs(es) == []
  {
    MarksCounts(es);
  }

  // ---------------------------------------------------------------------------
  // The semester label

  /** The alternatives of `\b(VIII|VII|VI|V|IV|III|II|I)\b`; alternative k stands for 8 - k. */
  const Numerals: seq<string> := ["VIII", "VII", "VI", "V", "IV", "III", "II", "I"]

  /** `roman_numerals[n]` */
  function Roman(n: nat): (r: string)
    requires 1 <= n <= 8
    ensures r == Numerals[8 - n]
  {
    Numerals[8 - n]
  }

  /** The numerals are distinct words of the letters I and V. */
  lemma NumeralLetters()
    ensures Distinct(Numerals)
    ensures forall k, i :: 0 <= k < 8 && 0 <= i < |Numerals[k]| ==> Numerals[k][i] == 'I' || Numerals[k][i] == 'V'
    ensures forall k :: 0 <= k < 8 ==> |Numerals[k]| > 0
  {
  }

  /** The end of the word that starts at p: the first position from p on that holds no word
      character. */
  function WordEnd(s: string, p: nat): (q: nat)
    requires p <= |s|
    ensures p <= q <= |s| && (q == |s| || !IsWordChar(s[q]))
    ensures forall i :: p <= i < q ==> IsWordChar(s[i])
    decreases |s| - p
  {
    if p == |s| || !IsWordChar(s[p]) then p else WordEnd(s, p + 1)
  }

  /** `\b` before p, seen from a word character at p. */
  predicate StartsWord(s: string, p: nat)
    requires p <= |s|
  {
    p == 0 || !IsWordChar(s[p - 1])
  }

  /** The value of the numeral matched at p, if any. Every alternative is made of word
      characters, so with `\b` on both sides an alternative matches at p exactly when it is
      the whole word starting there; the alternatives are distinct, so their order does not
      matter. */
  function MatchAt(s: string, p: nat): (n: Option<nat>)
    requires p <= |s|
    ensures n.Some? <==> StartsWord(s, p) && s[p..WordEnd(s, p)] in Numerals
    ensures n.Some? ==> 1 <= n.value <= 8 && s[p..WordEnd(s, p)] == Roman(n.value)
  {
    var k := IndexOf(Numerals, s[p..WordEnd(s, p)]);
    if StartsWord(s, p) && k < 8 then Some(8 - k) else None
  }

  /** re.search from position p: the value at the leftmost position that matches. */
  function SearchFrom(s: string, p: nat): (n: Option<nat>)
    requires p <= |s|
    ensures n.Some? ==> 1 <= n.value <= 8
    decreases |s| - p
  {
    if p == |s| then None
    else if MatchAt(s, p).Some? then MatchAt(s, p)
    else SearchFrom(s, p + 1)
  }

  /** The semester number a label names ("B.E- IV Semester" gives 4); 4 when it names none. */
  function SemesterNumber(semester: string): (n: nat)
    ensures 1 <= n <= 8
  {
    match SearchFrom(semester, 0)
    case Some(n) => n
    case None => 4
  }

  /** Positions holding neither 'I' nor 'V' start no numeral, so the search passes them. */
  lemma {:induction false} SearchSkips(s: string, p: nat, q: nat)
    requires p <= q <= |s|
    requires forall i :: p <= i < q ==> s[i] != 'I' && s[i] != 'V'
    ensures SearchFrom(s, p) == SearchFrom(s, q)
    decreases q - p
  {
    if p < q {
      NumeralLetters();
      var w := s[p..WordEnd(s, p)];
      assert w != [] ==> w[0] == s[p];
      assert MatchAt(s, p).None?;
      SearchSkips(s, p + 1, q);
    }
  }

  /** A label naming no numeral gives the default, 4. */
  lemma DefaultSemester(semester: string)
    requires forall i :: 0 <= i < |semester| ==> semester[i] != 'I' && semester[i] != 'V'
    ensures SemesterNumber(semester) == 4
  {
    SearchSkips(semester, 0, |semester|);
  }

  /** A word between two non-word characters (or the ends of the string) is the word
      that starts there. */
  lemma WordAt(before: string, w: string, after: string)
    requires forall i :: 0 <= i < |w| ==> IsWordChar(w[i])
    requires before == [] || !IsWordChar(before[|before| - 1])
    requires after == [] || !IsWordChar(after[0])
    ensures StartsWord(before + w + after, |before|)
    ensures (before + w + after)[|before|..WordEnd(before + w + after, |before|)] == w
  {
    var s := before + w + after;
    var p := |before|;
    var q := p + |w|;
    assert forall i :: p <= i < q ==> s[i] == w[i - p];
    assert q < |s| ==> s[q] == after[0];
    WordEndAt(s, p, q);
    assert s[p..q] == w;
  }

  /** A label that writes the semester as a Roman numeral word, with no 'I' or 'V' before it,
      names that semester. */
  lemma SemesterRoundTrip(before: string, n: nat, after: string)
    requires 1 <= n <= 8
    requires forall i :: 0 <= i < |before| ==> before[i] != 'I' && before[i] != 'V'
    requires before == [] || !IsWordChar(before[|before| - 1])
    requires after == [] || !IsWordChar(after[0])
    ensures SemesterNumber(before + Roman(n) + after) == n
  {
    var w := Roman(n);
    var s := before + w + after;
    var p := |before|;
    assert p < |s| && StartsWord(s, p) && s[p..WordEnd(s, p)] == w by {
      NumeralLetters();
      assert forall i :: 0 <= i < |w| ==> IsWordChar(w[i]);
      WordAt(before, w, after);
    }
    assert SearchFrom(s, 0) == SearchFrom(s, p) by {
      assert forall i :: 0 <= i < p ==> s[i] == before[i];
      SearchSkips(s, 0, p);
    }
    NumeralMatches(s, p, n);
  }

  /** The numeral of n, as a whole word starting at p, matches there. */
  lemma NumeralMatches(s: string, p: nat, n: nat)
    requires 1 <= n <= 8 && p < |s| && StartsWord(s, p) && s[p..WordEnd(s, p)] == Roman(n)
    ensures SearchFrom(s, p) == Some(n)
  {
    assert IndexOf(Numerals, Roman(n)) == 8 - n by {
      NumeralLetters();
      IndexOfDistinct(Numerals, 8 - n);
    }
    assert MatchAt(s, p) == Some(n);
  }

  /** The word starting at p ends at q when s[p..q] is all word characters and q ends it. */
  lemma {:induction false} WordEndAt(s: string, p: nat, q: nat)
    requires p <= q <= |s| && (q == |s| || !IsWordChar(s[q]))
    requires forall i :: p <= i < q ==> IsWordChar(s[i])
    ensures WordEnd(s, p) == q
    decreases q - p
  {
    if p < q {
      WordEndAt(s, p + 1, q);
    }
  }

  /** The number of earlier semesters shown: `max(1, semester_num - 1)`. */
  function PriorSemesters(n: nat): nat {
    if n >= 2 then n - 1 else 1
  }

  /** The header row of the backlog table. */
  function BacklogHeaders(prior: nat): (h: seq<string>)
    requires 1 <= prior <= 7
    ensures |h| == prior + 1
    ensures forall i :: 0 <= i < prior ==> h[i] == Roman(i + 1) + " Sem."
    ensures h[prior] == "Remarks by Head of the Department"
  {
    seq(prior, i requires 0 <= i < prior => Roman(i + 1) + " Sem.") + ["Remarks by Head of the Department"]
  }

  // ---------------------------------------------------------------------------
  // The backlog cells

  /** How the roster row is found: by str().strip() (the per-student report) or by raw
      `==` (the consolidated report). */
  datatype RosterMatch = Trimmed | Raw

  function Matcher(m: RosterMatch, roll: Cell): Cell -> bool {
    match m
    case Trimmed => SameKey(Key(roll))
    case Raw => c => PyEq(c, roll)
  }

  /** The column names tried, in order, for semester i. */
  function SemColumns(i: nat): (cs: seq<Cell>)
    ensures |cs| == 4
  {
    var d := IntStr(i);
    [Text("sem " + d), Text("sem" + d), Text("Sem " + d), Text("Sem" + d)]
  }

  /** The semester-i cell of the roster row r: str() of the first present column, or "-". */
  function SemCell(roster: Table, r: nat, i: nat): (s: string)
    requires Valid(roster) && r < |roster.rows|
    ensures FirstColumn(roster, SemColumns(i)) == 4 ==> s == "-"
  {
    var k := FirstColumn(roster, SemColumns(i));
    if k == 4 then "-"
    else
      var v := GetOr(roster, r, SemColumns(i)[k], Missing);
      if v.Missing? then "-" else ToStr(v)
  }

  /** The roster row the backlog block reads, if any. */
  function BacklogRow(roster: Option<Table>, roll: Cell, m: RosterMatch): (r: Option<nat>)
    requires roster.Some? ==> Valid(roster.value)
    ensures r.Some? ==> roster.Some? && r.value < |roster.value.rows|
  {
    if roster.None? then None else RosterRow(roster.value, Matcher(m, roll))
  }

  /** The data row of the backlog table: one cell per earlier semester, then the Remarks
      cell, which is always "-". */
  function BacklogCells(roster: Option<Table>, row: Option<nat>, prior: nat): (cells: seq<string>)
    requires roster.Some? ==> Valid(roster.value)
    requires row.Some? ==> roster.Some? && row.value < |roster.value.rows|
    ensures |cells| == prior + 1 && cells[prior] == "-"
    ensures row.None? ==> forall i :: 0 <= i < |cells| ==> cells[i] == "-"
    ensures row.Some? ==> forall i :: 0 <= i < prior ==> cells[i] == SemCell(roster.value, row.value, i + 1)
  {
    seq(prior, i requires 0 <= i < prior && (row.Some? ==> roster.Some? && row.value < |roster.value.rows|) && (roster.Some? ==> Valid(roster.value)) =>
      if row.None? then "-" else SemCell(roster.value, row.value, i + 1)) + ["-"]
  }

  datatype Backlog = Backlog(headers: seq<string>, cells: seq<string>)

  /** The backlog block for a semester label and a student's roll. */
  function BacklogOf(semester: string, roster: Option<Table>, roll: Cell, m: RosterMatch): (b: Backlog)
    requires roster.Some? ==> Valid(roster.value)
    ensures |b.headers| == |b.cells| == PriorSemesters(SemesterNumber(semester)) + 1
  {
    var prior := PriorSemesters(SemesterNumber(semester));
    Backlog(BacklogHeaders(prior), BacklogCells(roster, BacklogRow(roster, roll, m), prior))
  }

  // ---------------------------------------------------------------------------
  // The whole report

  /** The template parameters that change what is computed. */
  datatype Options = Options(semester: string, detailed: bool, includeBacklog: bool)

  /** The marks table: the rows, the accumulators and what the TOTAL and Percentage rows show. */
  datatype MarksTable = MarksTable(
    rows: seq<Row>, totals: Totals, max: int, totalCell: string,
    attendance: real, marks: Option<real>)

  /** What a report displays. The status and the backlog block belong to the Detailed
      template only, the backlog block to include_backlog as well. */
  datatype ReportData = ReportData(
    roll: string, name: string, father: string,
    table: Option<MarksTable>,
    status: Option<string>,
    backlog: Option<Backlog>)

  function TableOf(t: Totals, rows: seq<Row>): MarksTable {
    MarksTable(rows, t, MaxMarks(t), TotalCell(t), AttendancePercent(t), MarksPercent(t))
  }

  /** The report for complete student data, or the error Python raises: a KeyError when
      personal_info is empty, a TypeError from a non-numeric attendance value. Without
      subjects the report is the header alone: the marks table, the status note and the
      backlog block are all drawn under `if subjects:`. */
  function ReportOf(d: StudentData, opts: Options, roster: Option<Table>, m: RosterMatch): (r: Result<ReportData, string>)
    requires roster.Some? ==> Valid(roster.value)
    ensures d.info.None? ==> r.Err?
    ensures d.info.Some? && d.subjects == [] ==> r.Ok?
    ensures d.info.Some? && d.subjects != [] ==> (r.Ok? <==> Accumulate(TheoryFirst(d.subjects)).Some?)
    ensures r.Ok? ==> (r.value.table.Some? <==> d.subjects != [])
    ensures r.Ok? ==> (r.value.status.Some? <==> d.subjects != [] && opts.detailed)
    ensures r.Ok? ==> (r.value.backlog.Some? <==> d.subjects != [] && opts.detailed && opts.includeBacklog)
  {
    if d.info.None? then Err("KeyError: 'roll_no'")
    else
      var info := d.info.value;
      if d.subjects == [] then Ok(ReportData(ToStr(info.roll), info.name, info.father, None, None, None))
      else
        var sorted := TheoryFirst(d.subjects);
        var totals := Accumulate(sorted);
        if totals.None? then Err("TypeError: unsupported operand type(s) for +=")
        else
          Ok(ReportData(
            ToStr(info.roll), info.name, info.father, Some(TableOf(totals.value, Rows(sorted))),
            if opts.detailed then Some(Status(AttendancePercent(totals.value))) else None,
            if opts.detailed && opts.includeBacklog then Some(BacklogOf(opts.semester, roster, info.roll, m)) else None))
  }

  /** create_comprehensive_student_report (m == Trimmed) and one student's page of
      create_consolidated_all_students_report (m == Raw). */
  method CreateReport(d: StudentData, opts: Options, roster: Option<Table>, m: RosterMatch) returns (r: Result<ReportData, string>)
    requires roster.Some? ==> Valid(roster.value)
    ensures r == ReportOf(d, opts, roster, m)
  {
    if d.info.None? {
      return Err("KeyError: 'roll_no'");
    }
    var info := d.info.value;
    if d.subjects == [] {
      return Ok(ReportData(ToStr(info.roll), info.name, info.father, None, None, None));
    }
    var sorted := TheoryFirst(d.subjects);
    var agg := Aggregate(sorted);
    if agg.None? {
      return Err("TypeError: unsupported operand type(s) for +=");
    }
    var totals := agg.value.0;
    var status := if opts.detailed then Some(Status(AttendancePercent(totals))) else None;
    var backlog := if opts.detailed && opts.includeBacklog then Some(BacklogOf(opts.semester, roster, info.roll, m)) else None;
    r := Ok(ReportData(ToStr(info.roll), info.name, info.father, Some(TableOf(totals, agg.value.1)), status, backlog));
  }

  // ---------------------------------------------------------------------------
  // generate_student_reports and the consolidated report

  /** The name of the document generate_student_reports returns. */
  function ReportName(name: string): string {
    name + "_Comprehensive_Report_docx"
  }

  /** generate_student_reports: nothing (an empty dict) for a roll no subject table holds,
      otherwise the named report, or the error the report raised. */
  function StudentReport(roll: Cell, subjects: seq<Subject>, roster: Option<Table>, opts: Options): (r: Result<Option<(string, ReportData)>, string>)
    requires HasRolls(subjects) && (roster.Some? ==> Valid(roster.value))
    ensures r == Ok(None) <==> SubjectsOf(subjects, Key(roll)) == []
    ensures r.Ok? && r.value.Some? ==> r.value.value.0 == ReportName(r.value.value.1.name)
  {
    var d := CompleteData(roll, subjects, roster);
    if d.subjects == [] then Ok(None)
    else
      InfoIffEntries(subjects, Key(roll));
      match ReportOf(d, opts, roster, Trimmed)
      case Err(e) => Err(e)
      case Ok(rep) => Ok(Some((ReportName(rep.name), rep)))
  }

  /** One page of the consolidated document: blank (None) for a roll no subject table holds,
      otherwise the report with the roster matched by raw `==`. */
  function Page(roll: Cell, subjects: seq<Subject>, roster: Option<Table>, opts: Options): (r: Result<Option<ReportData>, string>)
    requires HasRolls(subjects) && (roster.Some? ==> Valid(roster.value))
    ensures r.Ok? ==> (r.value.None? <==> SubjectsOf(subjects, Key(roll)) == [])
  {
    var d := CompleteData(roll, subjects, roster);
    if d.subjects == [] then Ok(None)
    else match ReportOf(d, opts, roster, Raw)
      case Err(e) => Err(e)
      case Ok(rep) => Ok(Some(rep))
  }

  /** The pages of the consolidated document, one per roll in order. */
  function Pages(rolls: seq<Cell>, subjects: seq<Subject>, roster: Option<Table>, opts: Options): (ps: seq<Result<Option<ReportData>, string>>)
    requires HasRolls(subjects) && (roster.Some? ==> Valid(roster.value))
    ensures |ps| == |rolls|
  {
    seq(|rolls|, i requires 0 <= i < |rolls| && HasRolls(subjects) && (roster.Some? ==> Valid(roster.value)) =>
      Page(rolls[i], subjects, roster, opts))
  }

  /** create_consolidated_all_students_report: a page per roll, in order; an error raised for
      any student fails the whole document. */
  method CreateConsolidated(rolls: seq<Cell>, subjects: seq<Subject>, roster: Option<Table>, opts: Options)
    returns (r: Result<seq<Option<ReportData>>, string>)
    requires HasRolls(subjects) && (roster.Some? ==> Valid(roster.value))
    ensures r == Gather(Pages(rolls, subjects, roster, opts))
  {
    ghost var ps := Pages(rolls, subjects, roster, opts);
    var pages: seq<Option<ReportData>> := [];
    assert ps[..0] == [];
    for n := 0 to |rolls|
      invariant Gather(ps[..n]) == Ok(pages)
    {
      GatherPrefix(ps, n);
      var page := MakePage(rolls, n, subjects, roster, opts);
      if page.Err? {
        GatherFails(ps, n + 1);
        return Err(page.error);
      }
      pages := pages + [page.value];
    }
    assert ps[..|rolls|] == ps;
    r := Ok(pages);
  }

  /** The body of the loop for roll n. */
  method MakePage(rolls: seq<Cell>, n: nat, subjects: seq<Subject>, roster: Option<Table>, opts: Options)
    returns (r: Result<Option<ReportData>, string>)
    requires HasRolls(subjects) && (roster.Some? ==> Valid(roster.value)) && n < |rolls|
    ensures r == Pages(rolls, subjects, roster, opts)[n]
  {
    var d := GetStudentCompleteData(rolls[n], subjects, roster);
    if d.subjects == [] {
      return Ok(None);
    }
    var rep := CreateReport(d, opts, roster, Raw);
    if rep.Err? {
      return Err(rep.error);
    }
    r := Ok(Some(rep.value));
  }

  /** A page of the consolidated document is blank exactly when no subject table holds
      that roll. */
  lemma BlankPages(rolls: seq<Cell>, subjects: seq<Subject>, roster: Option<Table>, opts: Options, i: nat)
    requires HasRolls(subjects) && (roster.Some? ==> Valid(roster.value))
    requires Gather(Pages(rolls, subjects, roster, opts)).Ok? && i < |rolls|
    ensures Gather(Pages(rolls, subjects, roster, opts)).value[i].None? <==> SubjectsOf(subjects, Key(rolls[i])) == []
  {
    var ps := Pages(rolls, subjects, roster, opts);
    assert ps[i] == Page(rolls[i], subjects, roster, opts);
  }

  // ---------------------------------------------------------------------------
  // Where the two roster matches part

  /** A roster that types the roll as text: the per-student report finds the row for a roll
      the subject table holds as a number, the consolidated report's raw `==` does not. */
  lemma RawMatchMissesTextRoll()
    ensures var roster := Table([Text("roll_no"), Text("sem 1")], [[Text("7"), Text("2")]]);
            BacklogRow(Some(roster), Int(7), Trimmed) == Some(0) && BacklogRow(Some(roster), Int(7), Raw).None?
  {
    var roster := Table([Text("roll_no"), Text("sem 1")], [[Text("7"), Text("2")]]);
    assert FirstColumn(roster, RollColumns) == 0;
    assert Key(Int(7)) == "7";
    assert Key(Text("7")) == "7";
  }

  /** A roster that reads the roll numbers as floats: the trimmed strings of the integer
      roll n and of the roster's n.0 never agree, so the per-student report finds no row... */
  lemma TrimmedMatchMissesFloatRoll(n: int)
    ensures var roster := Table([Text("roll_no"), Text("sem 1")], [[Float(n as real), Text("2")]]);
            BacklogRow(Some(roster), Int(n), Trimmed).None?
  {
    IntAndFloatKeysDiffer(n, n as real);
    OneRowRoster(Float(n as real), Text("2"), Matcher(Trimmed, Int(n)));
  }

  /** ...while the consolidated report's raw `==` matches n with n.0. */
  lemma RawMatchFindsFloatRoll(n: int)
    ensures var roster := Table([Text("roll_no"), Text("sem 1")], [[Float(n as real), Text("2")]]);
            BacklogRow(Some(roster), Int(n), Raw) == Some(0)
  {
    OneRowRoster(Float(n as real), Text("2"), Matcher(Raw, Int(n)));
  }

  /** The roster with one row and the columns roll_no and sem 1. */
  lemma OneRowRoster(x: Cell, y: Cell, p: Cell -> bool)
    ensures RosterRow(Table([Text("roll_no"), Text("sem 1")], [[x, y]]), p) == if p(x) then Some(0) else None
  {
    var roster := Table([Text("roll_no"), Text("sem 1")], [[x, y]]);
    assert FirstColumn(roster, RollColumns) == 0;
  }

  // ---------------------------------------------------------------------------
  // The marks of one subject

  /** When any non-AB component of a theory subject fails float(), all three contributions
      are 0: the row total shows "0" and the subject still adds 40 to the maximum. */
  lemma ParseFailureZeroesAll(e: SubjectEntry)
    requires Component(e.dt).None? || Component(e.st).None? || Component(e.at).None?
    ensures TheoryValues(e) == (IntNum(0), IntNum(0), IntNum(0))
    ensures TheoryTotal(e) == IntNum(0)
    ensures TheoryText(e).total == "0"
  {
    assert TheoryValues(e) == (IntNum(0), IntNum(0), IntNum(0));
    ZeroTotalText(e);
  }

  /** A total of 0 shows as "0". */
  lemma ZeroTotalText(e: SubjectEntry)
    requires TheoryValues(e) == (IntNum(0), IntNum(0), IntNum(0))
    ensures TheoryTotal(e) == IntNum(0) && TheoryText(e).total == "0"
  {
    assert Round(0.0) == 0;
  }

  /** An AB component shows "AB" and contributes 0 when the others parse. */
  lemma AbCountsZero(e: SubjectEntry)
    requires IsAb(e.dt) && Component(e.st).Some? && Component(e.at).Some?
    ensures TheoryValues(e).0 == IntNum(0) && TheoryText(e).dt == "AB"
  {
  }

  /** A non-string lab mark equal to 0 (as the default ingestion fills in) is no mark: the lab
      shows "-" and adds nothing to the marks or the maximum. */
  lemma ZeroLabMarkIsNoMark(e: SubjectEntry, m: MarkSums)
    requires IsLab(e) && !e.lab.Text? && PyEq(e.lab, Int(0))
    ensures LabText(e.lab) == "-"
    ensures AddMarks(m, e) == m
  {
    assert LabOf(e.lab) == NoMark;
  }

  /** Any string is a lab mark: "ab" (in any case, with any padding) counts 25 towards the
      maximum and 0 towards the marks. */
  lemma AbsentLabCounts(e: SubjectEntry, m: MarkSums)
    requires IsLab(e) && e.lab.Text? && Lower(Trim(e.lab.s)) == "ab"
    ensures LabText(e.lab) == "AB"
    ensures AddMarks(m, e) == MarkSums(m.sum, m.theoryMax, m.labsWithMarks + 1)
  {
    assert LabOf(e.lab) == Absent by {
      assert HasLabMark(e.lab);
      assert ToStr(e.lab) == e.lab.s;
    }
  }
}
