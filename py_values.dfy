/** The few pieces of Python value semantics the quiz site's logic relies on:
    truthiness and `or`, `dict.get`, `str.strip()`, `str.lower()`, `str()` of a
    scalar and `int()` of a scalar. */
module PyValues {

  datatype Option<+T> = None | Some(value: T)

  /** A scalar as a spreadsheet cell or a record field holds it: Python's
      None, a bool, an int or a str. */
  datatype Cell = Null | Bool(b: bool) | Int(n: int) | Str(s: string)

  /** A value of a loosely typed row: a scalar, or a nested dict of scalars
      (the structured `options` column). */
  datatype Field = Plain(cell: Cell) | Nested(entries: map<string, Cell>)

  /** A record as the store returns it: column name to cell. */
  type Record = map<string, Cell>

  /** A loosely typed row as the question normaliser accepts it. */
  type Row = map<string, Field>

  // ---------- truthiness, `or`, `get` ----------

  predicate CellTruthy(c: Cell) {
    match c
    case Null => false
    case Bool(b) => b
    case Int(n) => n != 0
    case Str(s) => s != ""
  }

  predicate Truthy(f: Field) {
    match f
    case Plain(c) => CellTruthy(c)
    case Nested(m) => |m| != 0
  }

  /** Python's `x or y` on fields. */
  function Or(x: Field, y: Field): (r: Field)
    ensures Truthy(r) <==> Truthy(x) || Truthy(y)
  {
    if Truthy(x) then x else y
  }

  /** Python's `x or y` on cells. */
  function CellOr(x: Cell, y: Cell): (r: Cell)
    ensures CellTruthy(r) <==> CellTruthy(x) || CellTruthy(y)
  {
    if CellTruthy(x) then x else y
  }

  /** `r.get(k)` on a row: None when the key is absent. */
  function Get(r: Row, k: string): (f: Field)
    ensures k !in r ==> f == Plain(Null)
  {
    if k in r then r[k] else Plain(Null)
  }

  /** `r.get(k, default)` on a record. */
  function GetOr(r: Record, k: string, default: Cell): (c: Cell)
    ensures k in r ==> c == r[k]
    ensures k !in r ==> c == default
  {
    if k in r then r[k] else default
  }

  predicate IsStr(f: Field) {
    f.Plain? && f.cell.Str?
  }

  /** `(x or "")`, which is a str exactly when `x` is a str or falsy. */
  function OrEmpty(f: Field): Field {
    Or(f, Plain(Str("")))
  }

  /** The text of a field known to be a str. */
  function TextOf(f: Field): string
    requires IsStr(f)
  {
    f.cell.s
  }

  // ---------- str.strip() ----------

  /** The characters for which Python's `str.isspace()` holds. */
  predicate IsSpace(c: char) {
    || c == ' ' || ('\t' <= c <= '\r') || ('\U{1C}' <= c <= '\U{1F}')
    || c == '\U{85}' || c == '\U{A0}' || c == '\U{1680}'
    || ('\U{2000}' <= c <= '\U{200A}') || c == '\U{2028}' || c == '\U{2029}'
    || c == '\U{202F}' || c == '\U{205F}' || c == '\U{3000}'
  }

  predicate AllSpace(s: string) {
    forall i :: 0 <= i < |s| ==> IsSpace(s[i])
  }

  function StripLeading(s: string): (r: string)
    ensures |r| <= |s|
  {
    if s != [] && IsSpace(s[0]) then StripLeading(s[1..]) else s
  }

  function StripTrailing(s: string): (r: string)
    ensures |r| <= |s|
  {
    if s != [] && IsSpace(s[|s| - 1]) then StripTrailing(s[..|s| - 1]) else s
  }

  /** Python's `s.strip()`: `s` without its leading and trailing whitespace. */
  function Strip(s: string): (r: string)
    ensures |r| <= |s|
  {
    StripTrailing(StripLeading(s))
  }

  /** StripLeading removes a whitespace prefix and stops at a non-space. */
  lemma {:induction false} StripLeadingSpec(s: string)
    ensures var r := StripLeading(s);
            r == s[|s| - |r|..] && AllSpace(s[..|s| - |r|]) && (r != [] ==> !IsSpace(r[0]))
  {
    if s != [] && IsSpace(s[0]) {
      StripLeadingSpec(s[1..]);
      var r := StripLeading(s);
      assert s[1..][|s| - 1 - |r|..] == s[|s| - |r|..];
      assert forall i :: 1 <= i < |s| - |r| ==> s[i] == s[1..][..|s| - 1 - |r|][i - 1];
    }
  }

  /** StripTrailing removes a whitespace suffix and stops at a non-space. */
  lemma {:induction false} StripTrailingSpec(s: string)
    ensures var r := StripTrailing(s);
            r == s[..|r|] && AllSpace(s[|r|..]) && (r != [] ==> !IsSpace(r[|r| - 1]))
  {
    if s != [] && IsSpace(s[|s| - 1]) {
      StripTrailingSpec(s[..|s| - 1]);
      var r := StripTrailing(s);
      assert s[..|s| - 1][..|r|] == s[..|r|];
      assert forall i :: |r| <= i < |s| - 1 ==> s[i] == s[..|s| - 1][|r|..][i - |r|];
    }
  }

  /** Neither end of a stripped string is whitespace. */
  lemma StripEnds(s: string)
    ensures var r := Strip(s);
            r != [] ==> !IsSpace(r[0]) && !IsSpace(r[|r| - 1])
  {
    var t := StripLeading(s);
    StripLeadingSpec(s);
    StripTrailingSpec(t);
    var r := StripTrailing(t);
    if r != [] {
      assert r[0] == t[0];
    }
  }

  /** What `strip()` removes is whitespace at the two ends and nothing else. */
  lemma StripIsSlice(s: string)
    ensures exists i, j :: 0 <= i <= j <= |s| && Strip(s) == s[i..j] && AllSpace(s[..i]) && AllSpace(s[j..])
  {
    var t := StripLeading(s);
    StripLeadingSpec(s);
    StripTrailingSpec(t);
    var r := StripTrailing(t);
    var i, j := |s| - |t|, |s| - |t| + |r|;
    assert r == s[i..][..|r|] == s[i..j];
    assert s[j..] == t[|r|..];
  }

  lemma {:induction false} StripLeadingNoop(s: string)
    requires s == [] || !IsSpace(s[0])
    ensures StripLeading(s) == s
  {
  }

  lemma {:induction false} StripTrailingNoop(s: string)
    requires s == [] || !IsSpace(s[|s| - 1])
    ensures StripTrailing(s) == s
  {
  }

  /** A string with no whitespace at either end is its own strip. */
  lemma StripNoop(s: string)
    requires s == [] || (!IsSpace(s[0]) && !IsSpace(s[|s| - 1]))
    ensures Strip(s) == s
  {
    StripLeadingNoop(s);
    StripTrailingNoop(s);
  }

  /** `strip()` is idempotent. */
  lemma StripIdempotent(s: string)
    ensures Strip(Strip(s)) == Strip(s)
  {
    StripEnds(s);
    StripNoop(Strip(s));
  }

  lemma {:induction false} StripLeadingPadded(p: string, s: string)
    requires AllSpace(p)
    ensures StripLeading(p + s) == StripLeading(s)
  {
    if p != [] {
      assert (p + s)[0] == p[0] && IsSpace(p[0]);
      assert (p + s)[1..] == p[1..] + s;
      StripLeadingPadded(p[1..], s);
    } else {
      assert p + s == s;
    }
  }

  lemma {:induction false} StripTrailingPadded(s: string, q: string)
    requires AllSpace(q)
    ensures StripTrailing(s + q) == StripTrailing(s)
  {
    if q != [] {
      assert (s + q)[|s + q| - 1] == q[|q| - 1] && IsSpace(q[|q| - 1]);
      assert (s + q)[..|s + q| - 1] == s + q[..|q| - 1];
      StripTrailingPadded(s, q[..|q| - 1]);
    } else {
      assert s + q == s;
    }
  }

  lemma {:induction false} StripLeadingAllSpace(q: string)
    requires AllSpace(q)
    ensures StripLeading(q) == []
  {
    if q != [] {
      StripLeadingAllSpace(q[1..]);
    }
  }

  lemma {:induction false} StripLeadingAppend(s: string, q: string)
    requires AllSpace(q)
    ensures StripLeading(s + q) == if StripLeading(s) == [] then [] else StripLeading(s) + q
  {
    if s == [] {
      assert s + q == q;
      StripLeadingAllSpace(q);
    } else if IsSpace(s[0]) {
      assert (s + q)[1..] == s[1..] + q;
      StripLeadingAppend(s[1..], q);
    }
  }

  /** Whitespace around a string does not change its strip. */
  lemma StripPadded(p: string, s: string, q: string)
    requires AllSpace(p) && AllSpace(q)
    ensures Strip(p + s + q) == Strip(s)
  {
    assert p + s + q == p + (s + q);
    StripLeadingPadded(p, s + q);
    StripLeadingAppend(s, q);
    if StripLeading(s) != [] {
      StripTrailingPadded(StripLeading(s), q);
    }
  }

  // ---------- str.lower() ----------

  /** Python's lower-casing of one character, for the ASCII capitals, the
      Latin-1 capitals U+00C0-U+00DE (not U+00D7) and the Cyrillic capitals
      U+0400-U+042F; every other character is left as it is. */
  function LowerChar(c: char): char {
    if 'A' <= c <= 'Z' then (c as int + 32) as char
    else if '\U{C0}' <= c <= '\U{DE}' && c != '\U{D7}' then (c as int + 32) as char
    else if '\U{410}' <= c <= '\U{42F}' then (c as int + 32) as char
    else if '\U{400}' <= c <= '\U{40F}' then (c as int + 80) as char
    else c
  }

  /** Lower-casing never makes a character whitespace or stops it being one. */
  lemma LowerCharSpace(c: char)
    ensures IsSpace(LowerChar(c)) <==> IsSpace(c)
  {
  }

  /** Python's `s.lower()` (for the characters LowerChar covers). */
  function Lower(s: string): (r: string)
    ensures |r| == |s|
  {
    if s == [] then [] else [LowerChar(s[0])] + Lower(s[1..])
  }

  lemma {:induction false} LowerAt(s: string, i: nat)
    requires i < |s|
    ensures Lower(s)[i] == LowerChar(s[i])
  {
    if i > 0 {
      LowerAt(s[1..], i - 1);
    }
  }

  lemma {:induction false} LowerIdempotent(s: string)
    ensures Lower(Lower(s)) == Lower(s)
  {
    if s != [] {
      LowerIdempotent(s[1..]);
    }
  }

  lemma {:induction false} LowerNoop(s: string)
    requires forall i :: 0 <= i < |s| ==> LowerChar(s[i]) == s[i]
    ensures Lower(s) == s
  {
    if s != [] {
      assert forall i :: 0 <= i < |s| - 1 ==> s[1..][i] == s[i + 1];
      LowerNoop(s[1..]);
    }
  }

  /** `s.strip().lower()`, the normal form the source compares emails,
      groups, types and flags in. */
  function Norm(s: string): (r: string)
    ensures |r| <= |s|
  {
    Lower(Strip(s))
  }

  /** Normalising twice is normalising once: lower-casing never makes a
      character whitespace or stops it being one. */
  lemma NormIdempotent(s: string)
    ensures Norm(Norm(s)) == Norm(s)
  {
    var t := Strip(s);
    var l := Lower(t);
    StripEnds(s);
    if l != [] {
      LowerAt(t, 0);
      LowerAt(t, |t| - 1);
      LowerCharSpace(t[0]);
      LowerCharSpace(t[|t| - 1]);
    }
    StripNoop(l);
    LowerIdempotent(t);
  }

  /** A string with no whitespace at its ends and no capitals is its own
      normal form. */
  lemma NormNoop(s: string)
    requires s == [] || (!IsSpace(s[0]) && !IsSpace(s[|s| - 1]))
    requires forall i :: 0 <= i < |s| ==> LowerChar(s[i]) == s[i]
    ensures Norm(s) == s
  {
    StripNoop(s);
    LowerNoop(s);
  }

  /** Whitespace around a string does not change its normal form. */
  lemma NormPadded(p: string, s: string, q: string)
    requires AllSpace(p) && AllSpace(q)
    ensures Norm(p + s + q) == Norm(s)
  {
    StripPadded(p, s, q);
  }

  // ---------- str() and int() ----------

  function DigitChar(d: nat): (c: char)
    requires d < 10
    ensures '0' <= c <= '9'
  {
    ('0' as int + d) as char
  }

  /** The decimal digits of a natural number, most significant first. */
  function NatToDecimal(n: nat): (r: string)
    ensures |r| > 0
    ensures forall i :: 0 <= i < |r| ==> '0' <= r[i] <= '9'
  {
    if n < 10 then [DigitChar(n)] else NatToDecimal(n / 10) + [DigitChar(n % 10)]
  }

  /** `str(n)` for an int. */
  function IntToDecimal(n: int): (r: string)
    ensures |r| > 0
  {
    if n < 0 then "-" + NatToDecimal(-n) else NatToDecimal(n)
  }

  /** `str(c)` for a scalar. */
  function PyStr(c: Cell): string {
    match c
    case Null => "None"
    case Bool(b) => if b then "True" else "False"
    case Int(n) => IntToDecimal(n)
    case Str(s) => s
  }

  predicate AllDigits(s: string) {
    forall i :: 0 <= i < |s| ==> '0' <= s[i] <= '9'
  }

  /** The value of a string of decimal digits. */
  function DigitsValue(s: string): nat
    requires AllDigits(s)
  {
    if s == [] then 0 else DigitsValue(s[..|s| - 1]) * 10 + (s[|s| - 1] as int - '0' as int)
  }

  /** Python's `int(s)` for a str, limited to ASCII digits without
      underscores: optional surrounding whitespace, an optional sign, then at
      least one digit. None stands for the ValueError. */
  function ParseInt(s: string): Option<int> {
    var t := Strip(s);
    var neg := t != [] && t[0] == '-';
    var body := if t != [] && (t[0] == '-' || t[0] == '+') then t[1..] else t;
    if body != [] && AllDigits(body) then
      var v: int := DigitsValue(body);
      Some(if neg then -v else v)
    else None
  }

  /** `int(c)` for a scalar; None stands for the TypeError or ValueError it raises. */
  function PyInt(c: Cell): Option<int> {
    match c
    case Null => None
    case Bool(b) => Some(if b then 1 else 0)
    case Int(n) => Some(n)
    case Str(s) => ParseInt(s)
  }

  lemma {:induction false} DigitsOfNat(n: nat)
    ensures DigitsValue(NatToDecimal(n)) == n
  {
    if n >= 10 {
      var r := NatToDecimal(n);
      assert r[..|r| - 1] == NatToDecimal(n / 10);
      DigitsOfNat(n / 10);
    }
  }

  /** `int(str(n)) == n`. */
  lemma ParseDigits(d: string)
    requires d != [] && AllDigits(d)
    ensures ParseInt(d) == Some(DigitsValue(d) as int)
  {
    assert !IsSpace(d[0]) && !IsSpace(d[|d| - 1]);
    StripNoop(d);
  }

  lemma ParseNegatedDigits(d: string)
    requires d != [] && AllDigits(d)
    ensures ParseInt("-" + d) == Some(-(DigitsValue(d) as int))
  {
    var s := "-" + d;
    assert s[0] == '-' && s[1..] == d;
    assert !IsSpace(s[0]) && !IsSpace(s[|s| - 1]);
    StripNoop(s);
  }

  lemma ParseIntOfDecimal(n: int)
    ensures ParseInt(IntToDecimal(n)) == Some(n)
  {
    var m: nat := if n < 0 then -n else n;
    var d := NatToDecimal(m);
    DigitsOfNat(m);
    if n < 0 {
      ParseNegatedDigits(d);
      assert IntToDecimal(n) == "-" + d;
    } else {
      ParseDigits(d);
      assert IntToDecimal(n) == d;
    }
  }

  /** `int()` of a scalar that `str()` renders a digit string of reads the
      cell back unchanged. */
  lemma PyIntOfStr(n: int)
    ensures PyInt(Str(PyStr(Int(n)))) == Some(n)
  {
    ParseIntOfDecimal(n);
  }
}
