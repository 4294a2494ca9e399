/** A pandas DataFrame as the report system uses it: column labels in order and rows of
    cells aligned with them. */
module Tables {
  import opened Cells

  datatype Table = Table(columns: seq<Cell>, rows: seq<seq<Cell>>)

  predicate Distinct<T(==)>(s: seq<T>) {
    forall i, j :: 0 <= i < j < |s| ==> s[i] != s[j]
  }

  /** Every row has one cell per column and no label is used twice. */
  predicate Valid(t: Table) {
    && (forall r :: 0 <= r < |t.rows| ==> |t.rows[r]| == |t.columns|)
    && Distinct(t.columns)
  }

  function IndexOf<T(==)>(s: seq<T>, x: T): (k: nat)
    ensures k <= |s|
    ensures k < |s| ==> s[k] == x
    ensures forall j :: 0 <= j < k ==> s[j] != x
    ensures x in s <==> k < |s|
  {
    if s == [] then 0 else if s[0] == x then 0 else 1 + IndexOf(s[1..], x)
  }

  lemma IndexOfDistinct<T>(s: seq<T>, k: nat)
    requires Distinct(s) && k < |s|
    ensures IndexOf(s, s[k]) == k
  {
  }

  lemma IndexOfEach<T>(s: seq<T>)
    requires Distinct(s)
    ensures forall k :: 0 <= k < |s| ==> IndexOf(s, s[k]) == k
  {
    forall k | 0 <= k < |s| {
      IndexOfDistinct(s, k);
    }
  }

  /** df.loc[row, c], or None when the column is absent. */
  function Get(t: Table, r: nat, c: Cell): (v: Option<Cell>)
    requires Valid(t) && r < |t.rows|
    ensures v.Some? <==> c in t.columns
    ensures v.Some? ==> v.value == t.rows[r][IndexOf(t.columns, c)]
  {
    var k := IndexOf(t.columns, c);
    if k < |t.columns| then Some(t.rows[r][k]) else None
  }

  /** row.get(c, default) */
  function GetOr(t: Table, r: nat, c: Cell, default: Cell): (v: Cell)
    requires Valid(t) && r < |t.rows|
    ensures c !in t.columns ==> v == default
    ensures c in t.columns ==> v == t.rows[r][IndexOf(t.columns, c)]
  {
    match Get(t, r, c)
    case Some(x) => x
    case None => default
  }

  /** df[c] as a list. */
  function Column(t: Table, c: Cell): (col: seq<Cell>)
    requires Valid(t) && c in t.columns
    ensures |col| == |t.rows|
    ensures forall r :: 0 <= r < |t.rows| ==> col[r] == t.rows[r][IndexOf(t.columns, c)]
  {
    var k := IndexOf(t.columns, c);
    seq(|t.rows|, r requires 0 <= r < |t.rows| => t.rows[r][k])
  }

  /** `df[c] = v`: an existing column is overwritten where it stands, a new one is
      appended; every row gets v. */
  function Fill(t: Table, c: Cell, v: Cell): (u: Table)
    requires Valid(t)
    ensures Valid(u)
    ensures u.columns == if c in t.columns then t.columns else t.columns + [c]
    ensures |u.rows| == |t.rows|
    ensures forall r :: 0 <= r < |u.rows| ==> u.rows[r][IndexOf(u.columns, c)] == v
    ensures forall r, k :: 0 <= r < |u.rows| && 0 <= k < |t.columns| && t.columns[k] != c ==>
              u.rows[r][k] == t.rows[r][k]
  {
    var k := IndexOf(t.columns, c);
    if k < |t.columns| then
      Table(t.columns, seq(|t.rows|, r requires 0 <= r < |t.rows| => t.rows[r][k := v]))
    else
      Table(t.columns + [c], seq(|t.rows|, r requires 0 <= r < |t.rows| => t.rows[r] + [v]))
  }

  /** The rows whose cell in column k satisfies p: the index of `df[df[col] == x]`. */
  function Matching(t: Table, k: nat, p: Cell -> bool): (sel: set<nat>)
    requires Valid(t) && k < |t.columns|
    ensures forall r :: r in sel <==> 0 <= r < |t.rows| && p(t.rows[r][k])
  {
    set r | 0 <= r < |t.rows| && p(t.rows[r][k])
  }

  /** `df.loc[sel, c] = v`: the selected rows of column c get v; a new column is appended,
      holding NaN on the rows not selected. */
  function Assign(t: Table, sel: set<nat>, c: Cell, v: Cell): (u: Table)
    requires Valid(t)
    ensures Valid(u)
    ensures u.columns == if c in t.columns then t.columns else t.columns + [c]
    ensures |u.rows| == |t.rows|
    ensures forall r :: 0 <= r < |u.rows| ==>
              u.rows[r][IndexOf(u.columns, c)] == if r in sel then v else if c in t.columns then t.rows[r][IndexOf(t.columns, c)] else Missing
    ensures forall r, k :: 0 <= r < |t.rows| && 0 <= k < |t.columns| && t.columns[k] != c ==>
              u.rows[r][k] == t.rows[r][k]
  {
    var k := IndexOf(t.columns, c);
    if k < |t.columns| then
      Table(t.columns, seq(|t.rows|, r requires 0 <= r < |t.rows| => if r in sel then t.rows[r][k := v] else t.rows[r]))
    else
      Table(t.columns + [c], seq(|t.rows|, r requires 0 <= r < |t.rows| => t.rows[r] + [if r in sel then v else Missing]))
  }

  /** Appending labels does not move the ones already there. */
  lemma IndexOfAppend<T>(a: seq<T>, b: seq<T>, x: T)
    requires x in a
    ensures IndexOf(a + b, x) == IndexOf(a, x)
  {
    var k := IndexOf(a, x);
    assert (a + b)[k] == x;
    assert forall j :: 0 <= j < k ==> (a + b)[j] == a[j];
  }

  /** Text labels found among a's columns are found among b's when b keeps all of a's. */
  lemma TextWithin(xs: seq<Cell>, a: seq<Cell>, b: seq<Cell>)
    requires forall d :: d in xs ==> d.Text? && d in a
    requires forall d :: d in a ==> d in b
    ensures forall d :: d in xs ==> d.Text? && d in b
  {
  }

  /** `df[cols]`: the listed columns, in the listed order, of every row. */
  function Select(t: Table, cols: seq<Cell>): (u: Table)
    requires Valid(t) && Distinct(cols) && forall c :: c in cols ==> c in t.columns
    ensures Valid(u) && u.columns == cols && |u.rows| == |t.rows|
    ensures forall r, k :: 0 <= r < |t.rows| && 0 <= k < |cols| ==> u.rows[r][k] == t.rows[r][IndexOf(t.columns, cols[k])]
  {
    Table(cols, seq(|t.rows|, r requires 0 <= r < |t.rows| =>
      seq(|cols|, k requires 0 <= k < |cols| => t.rows[r][IndexOf(t.columns, cols[k])])))
  }

  /** The rows of a DataFrame as records, with NaN shown as "" (dataframe_to_dict). */
  function Records(t: Table): (recs: seq<map<Cell, Cell>>)
    requires Valid(t)
    ensures |recs| == |t.rows|
    ensures forall r :: 0 <= r < |t.rows| ==> recs[r].Keys == set c | c in t.columns
    ensures forall r, k :: 0 <= r < |t.rows| && 0 <= k < |t.columns| ==>
              recs[r][t.columns[k]] == if t.rows[r][k].Missing? then Text("") else t.rows[r][k]
  {
    IndexOfEach(t.columns);
    seq(|t.rows|, r requires 0 <= r < |t.rows| =>
      map c | c in t.columns :: var x := t.rows[r][IndexOf(t.columns, c)]; if x.Missing? then Text("") else x)
  }
}
