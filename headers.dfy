/** normalize_column_name and map_column_name: spreadsheet headers to canonical field names. */
module Headers {
  import opened Cells
  import opened Config
  import opened Dicts

  /** The characters the normaliser deletes: whitespace, '_', '.' and '-'. */
  predicate Dropped(c: char) {
    IsSpace(c) || c == '_' || c == '.' || c == '-'
  }

  /** A character the normaliser keeps unchanged. */
  predicate Kept(c: char) {
    !Dropped(c) && !IsAsciiUpper(c)
  }

  /** Lower-case, then delete every dropped character. */
  function NormalizeText(s: string): (r: string)
    ensures |r| <= |s|
    ensures forall k :: 0 <= k < |r| ==> Kept(r[k])
    decreases |s|
  {
    if s == [] then []
    else
      var c := LowerChar(s[|s| - 1]);
      NormalizeText(s[..|s| - 1]) + (if Dropped(c) then [] else [c])
  }

  /** A header that is not a string normalises to "". */
  function Normalize(h: Cell): string {
    match h
    case Text(s) => NormalizeText(s)
    case _ => ""
  }

  // ---------------------------------------------------------------------------
  // Algebra of the normaliser

  lemma {:induction false} NormalizeConcat(a: string, b: string)
    ensures NormalizeText(a + b) == NormalizeText(a) + NormalizeText(b)
    decreases |b|
  {
    if b == [] {
      assert a + b == a;
    } else {
      var b' := b[..|b| - 1];
      assert (a + b)[..|a + b| - 1] == a + b';
      assert (a + b)[|a + b| - 1] == b[|b| - 1];
      NormalizeConcat(a, b');
    }
  }

  /** A string of kept characters is its own normalisation, and only such strings are. */
  lemma {:induction false} NormalizeFixed(s: string)
    ensures NormalizeText(s) == s <==> forall k :: 0 <= k < |s| ==> Kept(s[k])
    decreases |s|
  {
    if s != [] && forall k :: 0 <= k < |s| ==> Kept(s[k]) {
      NormalizeFixed(s[..|s| - 1]);
    }
  }

  lemma NormalizeIdempotent(s: string)
    ensures NormalizeText(NormalizeText(s)) == NormalizeText(s)
  {
    NormalizeFixed(NormalizeText(s));
  }

  /** Deleting one dropped character does not change the normalisation. */
  lemma NormalizeSkips(a: string, c: char, b: string)
    requires Dropped(LowerChar(c))
    ensures NormalizeText(a + [c] + b) == NormalizeText(a + b)
  {
    NormalizeConcat(a + [c], b);
    NormalizeConcat(a, [c]);
    NormalizeConcat(a, b);
    assert [c][..0] == [];
  }

  /** Upper and lower case spell the same header. */
  lemma {:induction false} NormalizeIgnoresCase(s: string)
    ensures NormalizeText(Lower(s)) == NormalizeText(s)
    decreases |s|
  {
    if s != [] {
      var l := Lower(s);
      assert l[..|l| - 1] == Lower(s[..|s| - 1]);
      NormalizeIgnoresCase(s[..|s| - 1]);
    }
  }

  // ---------------------------------------------------------------------------
  // Evaluating the normaliser on literal headers

  /** The separators that appear in literal headers: all four are dropped. */
  predicate Separator(c: char) {
    c == ' ' || c == '_' || c == '.' || c == '-'
  }

  /** Characters that the normaliser keeps as they are and that literal headers use. */
  predicate Plain(c: char) {
    'a' <= c <= 'z' || '0' <= c <= '9' || c == '\''
  }

  /** A character-by-character check, sufficient for NormalizeText(s[i..]) == t[j..] and
      cheap to evaluate on literal headers; the synonym tables are normalised through it. */
  predicate NormalizesTo(s: string, i: nat, t: string, j: nat)
    requires i <= |s| && j <= |t|
    decreases |s| - i
  {
    if i == |s| then j == |t|
    else if Separator(s[i]) then NormalizesTo(s, i + 1, t, j)
    else
      && j < |t|
      && (if Plain(s[i]) then t[j] == s[i] else IsAsciiUpper(s[i]) && t[j] == LowerChar(s[i]))
      && NormalizesTo(s, i + 1, t, j + 1)
  }

  lemma {:induction false} NormalizesToSuffix(s: string, i: nat, t: string, j: nat)
    requires i <= |s| && j <= |t|
    requires NormalizesTo(s, i, t, j)
    ensures NormalizeText(s[i..]) == t[j..]
    decreases |s| - i
  {
    if i < |s| {
      var c := LowerChar(s[i]);
      assert s[i..] == [s[i]] + s[i + 1..];
      assert [s[i]][..0] == [];
      NormalizeConcat([s[i]], s[i + 1..]);
      if Separator(s[i]) {
        assert Dropped(c);
        NormalizesToSuffix(s, i + 1, t, j);
      } else {
        assert !Dropped(c) && t[j] == c;
        NormalizesToSuffix(s, i + 1, t, j + 1);
        assert t[j..] == [t[j]] + t[j + 1..];
      }
    }
  }

  lemma NormalizesToSound(s: string, t: string)
    requires NormalizesTo(s, 0, t, 0)
    ensures NormalizeText(s) == t
  {
    NormalizesToSuffix(s, 0, t, 0);
    assert s[0..] == s && t[0..] == t;
  }

  // ---------------------------------------------------------------------------
  // map_column_name

  /** The normalised header equals the normalisation of one of the variations. */
  predicate Listed(n: string, variations: seq<string>) {
    exists k :: 0 <= k < |variations| && NormalizeText(variations[k]) == n
  }

  /** The first canonical key, in table order, one of whose variations normalises to n. */
  function Lookup(n: string, table: seq<Mapping>): (r: Option<string>)
    ensures r.None? <==> forall i :: 0 <= i < |table| ==> !Listed(n, table[i].val)
    ensures r.Some? ==> exists i ::
              && 0 <= i < |table| && table[i].key == r.value
              && Listed(n, table[i].val)
              && forall i' :: 0 <= i' < i ==> !Listed(n, table[i'].val)
  {
    if table == [] then None
    else if Listed(n, table[0].val) then Some(table[0].key)
    else
      var r := Lookup(n, table[1..]);
      assert forall i :: 1 <= i < |table| ==> table[i] == table[1..][i - 1];
      r
  }

  /** map_column_name: the canonical key for the header, or the header unchanged. */
  function MapColumnName(h: Cell): (r: Cell)
    ensures r == h || exists i :: 0 <= i < |ColumnMappings| && r == Text(ColumnMappings[i].key)
  {
    match Lookup(Normalize(h), ColumnMappings)
    case Some(key) => Text(key)
    case None => h
  }

  /** The key the header maps to, when it is a canonical key. */
  predicate IsCanonical(h: Cell) {
    h.Text? && h.s in KeysOf(ColumnMappings)
  }
}
