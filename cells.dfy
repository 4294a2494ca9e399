/** Spreadsheet cell values and the Python conversions the report system applies to them:
    str(), str.strip(), str.lower(), float(), int() and truthiness. */
module Cells {

  datatype Option<T> = None | Some(value: T)

  datatype Result<T, E> = Ok(value: T) | Err(error: E)

  /** One cell of a pandas DataFrame: a number read from the sheet, a string,
      a boolean written by the code, or NaN for an empty cell. */
  datatype Cell = Int(i: int) | Float(f: real) | Text(s: string) | Bool(b: bool) | Missing

  // ---------------------------------------------------------------------------
  // Characters

  /** Python's str.isspace(), which is also what the regex class \s matches. */
  predicate IsSpace(c: char) {
    c == ' ' || ('\t' <= c <= '\r') || ('\U{1C}' <= c <= '\U{1F}') || c == '\U{85}'
    || c == '\U{A0}' || c == '\U{1680}' || ('\U{2000}' <= c <= '\U{200A}')
    || c == '\U{2028}' || c == '\U{2029}' || c == '\U{202F}' || c == '\U{205F}'
    || c == '\U{3000}'
  }

  predicate IsDigit(c: char) { '0' <= c <= '9' }

  predicate IsAsciiUpper(c: char) { 'A' <= c <= 'Z' }

  /** A character of the regex class \w (letters, digits, underscore), ASCII part. */
  predicate IsWordChar(c: char) {
    IsDigit(c) || IsAsciiUpper(c) || ('a' <= c <= 'z') || c == '_'
  }

  function LowerChar(c: char): (r: char)
    ensures !IsAsciiUpper(r)
    ensures IsAsciiUpper(c) || r == c
  {
    if IsAsciiUpper(c) then (c as int + 32) as char else c
  }

  // ---------------------------------------------------------------------------
  // Strings

  /** str.lower() */
  function Lower(s: string): (r: string)
    ensures |r| == |s|
    ensures forall k :: 0 <= k < |s| ==> r[k] == LowerChar(s[k])
  {
    if s == [] then [] else [LowerChar(s[0])] + Lower(s[1..])
  }

  function TrimLeft(s: string): (r: string)
    ensures |r| <= |s| && r == s[|s| - |r|..]
    ensures r == [] || !IsSpace(r[0])
    ensures forall k :: 0 <= k < |s| - |r| ==> IsSpace(s[k])
  {
    if s != [] && IsSpace(s[0]) then TrimLeft(s[1..]) else s
  }

  function TrimRight(s: string): (r: string)
    ensures |r| <= |s| && r == s[..|r|]
    ensures r == [] || !IsSpace(r[|r| - 1])
    ensures forall k :: |r| <= k < |s| ==> IsSpace(s[k])
  {
    if s != [] && IsSpace(s[|s| - 1]) then TrimRight(s[..|s| - 1]) else s
  }

  /** str.strip(): drops leading and trailing whitespace. */
  function Trim(s: string): string {
    TrimRight(TrimLeft(s))
  }

  predicate StartsWith(s: string, prefix: string) {
    |prefix| <= |s| && s[..|prefix|] == prefix
  }

  /** str.replace(a, b) for single characters. */
  function ReplaceChar(s: string, a: char, b: char): (r: string)
    ensures |r| == |s|
    ensures forall k :: 0 <= k < |s| ==> r[k] == if s[k] == a then b else s[k]
  {
    if s == [] then [] else [if s[0] == a then b else s[0]] + ReplaceChar(s[1..], a, b)
  }

  // ---------------------------------------------------------------------------
  // str() of a cell

  function DigitChar(d: nat): (c: char)
    requires d < 10
    ensures IsDigit(c)
  {
    "0123456789"[d]
  }

  function DigitValue(c: char): (d: nat)
    requires IsDigit(c)
    ensures d < 10
  {
    c as int - '0' as int
  }

  function NatStr(n: nat): (r: string)
    ensures r != []
    ensures forall k :: 0 <= k < |r| ==> IsDigit(r[k])
  {
    if n < 10 then [DigitChar(n)] else NatStr(n / 10) + [DigitChar(n % 10)]
  }

  /** str() of a Python int. */
  function IntStr(i: int): string {
    if i < 0 then "-" + NatStr(-i) else NatStr(i)
  }

  /** Up to n decimal digits of a fraction 0 <= x < 1, stopping once nothing is left. */
  function FracDigits(x: real, n: nat): (r: string)
    requires 0.0 <= x < 1.0
    ensures |r| <= n
    ensures forall k :: 0 <= k < |r| ==> IsDigit(r[k])
    decreases n
  {
    if n == 0 || x == 0.0 then ""
    else
      var d := (x * 10.0).Floor;
      [DigitChar(d)] + FracDigits(x * 10.0 - d as real, n - 1)
  }

  /** Whether str() prints a float positionally: zero and magnitudes in [1e-4, 1e16).
      Every other float prints in exponent form. */
  predicate Positional(f: real) {
    var a := if f < 0.0 then -f else f;
    a == 0.0 || (0.0001 <= a && a < 10000000000000000.0)
  }

  function Pow10(e: nat): (p: real)
    ensures p >= 1.0
  {
    if e == 0 then 1.0 else 10.0 * Pow10(e - 1)
  }

  /** A magnitude a >= 1 as a mantissa m in [1, 10) and an exponent e with a == m * 10^e. */
  function ScaleDown(a: real): (r: (real, nat))
    requires a >= 1.0
    ensures 1.0 <= r.0 < 10.0
    ensures a == r.0 * Pow10(r.1)
    ensures a >= 10.0 ==> r.1 > 0
    decreases a.Floor
  {
    if a < 10.0 then (a, 0)
    else
      var s := ScaleDown(a / 10.0);
      assert a == 10.0 * (s.0 * Pow10(s.1));
      (s.0, s.1 + 1)
  }

  /** A magnitude 0 < a < 1 as a mantissa m in [1, 10) and an exponent -k with
      a * 10^k == m. */
  function ScaleUp(a: real): (r: (real, nat))
    requires 0.0 < a < 1.0
    ensures 1.0 <= r.0 < 10.0 && r.1 > 0
    ensures a * Pow10(r.1) == r.0
    decreases (1.0 / a).Floor
  {
    var b := 10.0 * a;
    if b >= 1.0 then (b, 1)
    else
      assert 1.0 / b == (1.0 / a) / 10.0;
      var s := ScaleUp(b);
      assert a * Pow10(s.1 + 1) == b * Pow10(s.1);
      (s.0, s.1 + 1)
  }

  /** The mantissa of the exponent form: its digit, then '.' and up to 16 decimals when
      it is not integral. */
  function MantissaText(m: real): (r: string)
    requires 1.0 <= m < 10.0
    ensures r != [] && IsDigit(r[0]) && IsDigit(r[|r| - 1])
  {
    var whole := m.Floor;
    var frac := FracDigits(m - whole as real, 16);
    if frac == "" then NatStr(whole) else NatStr(whole) + "." + frac
  }

  /** sign, mantissa, 'e', the exponent's sign and at least two exponent digits. */
  function ExponentText(sign: string, mantissa: string, expSign: char, e: nat): (r: string)
    requires sign == "" || sign == "-"
    requires mantissa != [] && IsDigit(mantissa[0])
    ensures r != [] && !IsSpace(r[0]) && !IsSpace(r[|r| - 1])
    ensures 'e' in r
  {
    var digits := NatStr(e);
    var r := sign + mantissa + "e" + [expSign] + (if e < 10 then "0" else "") + digits;
    assert r[|sign| + |mantissa|] == 'e';
    assert r[0] == '-' || r[0] == mantissa[0];
    assert r[|r| - 1] == digits[|digits| - 1];
    r
  }

  /** str() of a Python float. In the positional range integral values print as "n.0" and
      other values print their integer part and up to 17 decimals; outside it the value
      prints as a mantissa and a signed exponent of at least two digits ("1e+16",
      "1.5e-05"). */
  function FloatStr(f: real): (r: string)
    ensures r != [] && !IsSpace(r[0]) && !IsSpace(r[|r| - 1])
    ensures Positional(f) ==> '.' in r && 'e' !in r
    ensures !Positional(f) ==> 'e' in r
  {
    var a := if f < 0.0 then -f else f;
    var sign := if f < 0.0 then "-" else "";
    if Positional(f) then
      var whole := a.Floor;
      var frac := FracDigits(a - whole as real, 17);
      DecimalText(sign, NatStr(whole), if frac == "" then "0" else frac)
    else if a >= 1.0 then
      var s := ScaleDown(a);
      ExponentText(sign, MantissaText(s.0), '+', s.1)
    else
      var s := ScaleUp(a);
      ExponentText(sign, MantissaText(s.0), '-', s.1)
  }

  /** sign, integer digits, '.', fraction digits. */
  function DecimalText(sign: string, whole: string, frac: string): (r: string)
    requires sign == "" || sign == "-"
    requires whole != [] && forall k :: 0 <= k < |whole| ==> IsDigit(whole[k])
    requires frac != [] && forall k :: 0 <= k < |frac| ==> IsDigit(frac[k])
    ensures r != [] && !IsSpace(r[0]) && !IsSpace(r[|r| - 1])
    ensures '.' in r && 'e' !in r
  {
    var r := sign + whole + "." + frac;
    assert IsDigit(whole[0]) && IsDigit(frac[|frac| - 1]);
    assert r[|sign| + |whole|] == '.';
    assert r[0] == '-' || r[0] == whole[0];
    assert r[|r| - 1] == frac[|frac| - 1];
    assert forall k :: 0 <= k < |r| ==> r[k] != 'e' by {
      forall k | 0 <= k < |r|
        ensures r[k] != 'e'
      {
        if k < |sign| {
          assert sign == "-" && r[k] == '-';
        } else if k < |sign| + |whole| {
          assert r[k] == whole[k - |sign|] && IsDigit(whole[k - |sign|]);
        } else if k == |sign| + |whole| {
          assert r[k] == '.';
        } else {
          assert r[k] == frac[k - |sign| - |whole| - 1] && IsDigit(frac[k - |sign| - |whole| - 1]);
        }
      }
    }
    r
  }

  /** Python's str() of a cell value; NaN prints as "nan". */
  function ToStr(c: Cell): string {
    match c
    case Int(i) => IntStr(i)
    case Float(f) => FloatStr(f)
    case Text(s) => s
    case Bool(b) => if b then "True" else "False"
    case Missing => "nan"
  }

  /** The roll-number key used by the join: str(x).strip(). */
  function Key(c: Cell): string {
    Trim(ToStr(c))
  }

  // ---------------------------------------------------------------------------
  // float(), int(), bool(), pd.notna()

  predicate AllDigits(s: string) {
    forall k :: 0 <= k < |s| ==> IsDigit(s[k])
  }

  function DigitsNat(s: string): nat
    requires AllDigits(s)
  {
    if s == [] then 0 else DigitsNat(s[..|s| - 1]) * 10 + DigitValue(s[|s| - 1])
  }

  function DigitsFraction(s: string): real
    requires AllDigits(s)
  {
    if s == [] then 0.0 else (DigitValue(s[0]) as real + DigitsFraction(s[1..])) / 10.0
  }

  function IndexOfChar(s: string, c: char): (k: nat)
    ensures k <= |s|
    ensures k < |s| ==> s[k] == c
    ensures forall j :: 0 <= j < k ==> s[j] != c
  {
    if s == [] then 0 else if s[0] == c then 0 else 1 + IndexOfChar(s[1..], c)
  }

  /** digits, optionally '.', digits; at least one digit in all. */
  function UnsignedDecimal(s: string): Option<real> {
    var k := IndexOfChar(s, '.');
    if k == |s| then
      if s != [] && AllDigits(s) then Some(DigitsNat(s) as real) else None
    else
      var whole, frac := s[..k], s[k + 1..];
      if |whole| + |frac| > 0 && AllDigits(whole) && AllDigits(frac)
      then Some(DigitsNat(whole) as real + DigitsFraction(frac))
      else None
  }

  /** float() of a string: surrounding whitespace, an optional sign and a decimal. */
  function ParseFloatText(s: string): Option<real> {
    var t := Trim(s);
    if t != [] && t[0] == '-' then
      match UnsignedDecimal(t[1..])
      case Some(v) => Some(-v)
      case None => None
    else if t != [] && t[0] == '+' then UnsignedDecimal(t[1..])
    else UnsignedDecimal(t)
  }

  function UnsignedInteger(s: string): Option<int> {
    if s != [] && AllDigits(s) then Some(DigitsNat(s)) else None
  }

  /** int() of a string: surrounding whitespace, an optional sign and digits. */
  function ParseIntText(s: string): Option<int> {
    var t := Trim(s);
    if t != [] && t[0] == '-' then
      match UnsignedInteger(t[1..])
      case Some(v) => Some(-v)
      case None => None
    else if t != [] && t[0] == '+' then UnsignedInteger(t[1..])
    else UnsignedInteger(t)
  }

  /** float(c); None where Python raises (and for NaN, see README). */
  function ToFloat(c: Cell): Option<real> {
    match c
    case Int(i) => Some(i as real)
    case Float(f) => Some(f)
    case Text(s) => ParseFloatText(s)
    case Bool(b) => Some(if b then 1.0 else 0.0)
    case Missing => None
  }

  /** Truncation toward zero, as int() does for a float. */
  function Truncate(f: real): int {
    if f >= 0.0 then f.Floor else -((-f).Floor)
  }

  /** int(c); None where Python raises (int() of NaN raises too). */
  function ToInt(c: Cell): Option<int> {
    match c
    case Int(i) => Some(i)
    case Float(f) => Some(Truncate(f))
    case Text(s) => ParseIntText(s)
    case Bool(b) => Some(if b then 1 else 0)
    case Missing => None
  }

  /** Python truthiness: zero, "" and False are falsy; NaN is truthy. */
  predicate Truthy(c: Cell) {
    match c
    case Int(i) => i != 0
    case Float(f) => f != 0.0
    case Text(s) => s != ""
    case Bool(b) => b
    case Missing => true
  }

  /** Python ==, as pandas applies it to a cell and a value: numbers (and booleans)
      compare by value, strings by text, NaN equals nothing. */
  predicate PyEq(a: Cell, b: Cell) {
    if a.Text? || b.Text? then a.Text? && b.Text? && a.s == b.s
    else match (ToNumber(a), ToNumber(b))
      case (Some(x), Some(y)) => NumValue(x) == NumValue(y)
      case _ => false
  }

  // ---------------------------------------------------------------------------
  // Python numbers in sums

  /** An int or a float; an int sum stays int until a float is added. */
  datatype Num = IntNum(i: int) | FloatNum(f: real)

  function NumValue(n: Num): real {
    match n
    case IntNum(i) => i as real
    case FloatNum(f) => f
  }

  /** A cell in an arithmetic position (`+=`): numbers and booleans add, a string raises a
      TypeError (None), and NaN is treated as not a number. */
  function ToNumber(c: Cell): (r: Option<Num>)
    ensures r.Some? <==> c.Int? || c.Float? || c.Bool?
    ensures r.Some? ==> Some(NumValue(r.value)) == ToFloat(c)
  {
    match c
    case Int(i) => Some(IntNum(i))
    case Float(f) => Some(FloatNum(f))
    case Bool(b) => Some(IntNum(if b then 1 else 0))
    case _ => None
  }

  /** a + b */
  function Add(a: Num, b: Num): (r: Num)
    ensures NumValue(r) == NumValue(a) + NumValue(b)
    ensures r.IntNum? <==> a.IntNum? && b.IntNum?
  {
    if a.IntNum? && b.IntNum? then IntNum(a.i + b.i) else FloatNum(NumValue(a) + NumValue(b))
  }

  /** str() of an int or a float. */
  function NumStr(n: Num): string {
    match n
    case IntNum(i) => IntStr(i)
    case FloatNum(f) => FloatStr(f)
  }

  /** Python's round() to an integer: the nearest integer, ties to the even one. */
  function Round(x: real): (r: int)
    ensures -0.5 <= x - r as real <= 0.5
    ensures (x - r as real == 0.5 || x - r as real == -0.5) ==> r % 2 == 0
  {
    var f := x.Floor;
    var d := x - f as real;
    if d < 0.5 then f
    else if d > 0.5 then f + 1
    else if f % 2 == 0 then f
    else f + 1
  }

  predicate EndsWith(s: string, suffix: string) {
    |suffix| <= |s| && s[|s| - |suffix|..] == suffix
  }

  // ---------------------------------------------------------------------------
  // Properties

  /** Trimming twice is trimming once, so Key is insensitive to surrounding whitespace. */
  lemma TrimIdempotent(s: string)
    ensures Trim(Trim(s)) == Trim(s)
  {
    var l := TrimLeft(s);
    var r := TrimRight(l);
    if r != [] {
      assert r[0] == l[0];
    }
  }

  lemma KeyIgnoresPadding(s: string)
    ensures Key(Text(Trim(s))) == Key(Text(s))
  {
    TrimIdempotent(s);
  }

  /** A key stored back as text is its own key. */
  lemma KeyOfKey(c: Cell)
    ensures Key(Text(Key(c))) == Key(c)
  {
    KeyIgnoresPadding(ToStr(c));
  }

  lemma {:induction false} DigitsNatOfNatStr(n: nat)
    ensures AllDigits(NatStr(n)) && DigitsNat(NatStr(n)) == n
  {
    if n >= 10 {
      DigitsNatOfNatStr(n / 10);
      var r := NatStr(n);
      assert r[..|r| - 1] == NatStr(n / 10);
    }
  }

  lemma TrimDigits(s: string)
    requires s != [] && !IsSpace(s[0]) && !IsSpace(s[|s| - 1])
    ensures Trim(s) == s
  {
  }

  /** str() of an integer has no surrounding whitespace. */
  lemma IntStrTrimmed(i: int)
    ensures Trim(IntStr(i)) == IntStr(i)
  {
    var n: nat := if i < 0 then -i else i;
    var d := IntStr(i);
    assert d[|d| - 1] == NatStr(n)[|NatStr(n)| - 1];
    if i >= 0 {
      assert d[0] == NatStr(n)[0];
    }
    TrimDigits(d);
  }

  /** An integer cell and a text cell holding its decimal digits, padded or not, have one key. */
  lemma IntKeyMatchesText(i: int, s: string)
    requires Trim(s) == IntStr(i)
    ensures Key(Int(i)) == Key(Text(s))
  {
    IntStrTrimmed(i);
  }

  /** int(str(i)) == i: the decimal text of an integer reads back as that integer. */
  lemma IntStrRoundTrip(i: int)
    ensures ToInt(Text(IntStr(i))) == Some(i)
  {
    var n: nat := if i < 0 then -i else i;
    DigitsNatOfNatStr(n);
    if i < 0 {
      ParseNegative(NatStr(n), n);
    } else {
      ParsePositive(NatStr(n), n);
    }
  }

  /** A run of digits parses as its value. */
  lemma ParsePositive(d: string, n: nat)
    requires d != [] && AllDigits(d) && DigitsNat(d) == n
    ensures ParseIntText(d) == Some(n)
  {
    assert IsDigit(d[0]) && IsDigit(d[|d| - 1]);
    TrimDigits(d);
  }

  /** A run of digits after a '-' parses as the negated value. */
  lemma ParseNegative(d: string, n: nat)
    requires d != [] && AllDigits(d) && DigitsNat(d) == n
    ensures ParseIntText("-" + d) == Some(-(n as int))
  {
    var t := "-" + d;
    assert IsDigit(d[|d| - 1]);
    assert t[0] == '-' && t[|t| - 1] == d[|d| - 1];
    TrimDigits(t);
    assert t[1..] == d;
  }

  /** str(i).strip() of an int is made of digits and at most a leading '-': no '.' and no
      'e'. */
  lemma IntKeyHasNoMark(i: int)
    ensures '.' !in Key(Int(i)) && 'e' !in Key(Int(i))
  {
    IntStrTrimmed(i);
    var n: nat := if i < 0 then -i else i;
    var d := IntStr(i);
    forall k | 0 <= k < |d|
      ensures d[k] != '.' && d[k] != 'e'
    {
      if i < 0 && k > 0 {
        assert d[k] == NatStr(n)[k - 1];
      }
    }
  }

  /** str(f).strip() of a float keeps the '.' str() prints in the positional range and the
      'e' of the exponent form outside it. */
  lemma FloatKeyHasMark(f: real)
    ensures Positional(f) ==> '.' in Key(Float(f))
    ensures !Positional(f) ==> 'e' in Key(Float(f))
  {
    TrimDigits(FloatStr(f));
  }

  /** An int cell and a float cell never share a key, even when they are equal numbers. */
  lemma IntAndFloatKeysDiffer(i: int, f: real)
    ensures Key(Int(i)) != Key(Float(f))
  {
    IntKeyHasNoMark(i);
    FloatKeyHasMark(f);
  }

  /** A word that starts with a letter, such as the absence mark "AB", is not a number to int(). */
  lemma WordIsNotAnInt(s: string)
    requires s != [] && IsAsciiUpper(s[0]) && !IsSpace(s[|s| - 1])
    ensures ToInt(Text(s)).None? && Truthy(Text(s))
  {
    TrimDigits(s);
  }
}
