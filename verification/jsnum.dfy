/** The JavaScript number built-ins the editor uses, over exact reals:
    `parseInt` (no radix), `parseFloat`, `Math.floor`, `Math.trunc` and the
    `%` operator. A parse result of `None` stands for a value that is not a
    finite number: `NaN`, or `Infinity`/`-Infinity` from the literal
    "Infinity". The parsers scan the text by position. */
module JsNumber {
  import opened Wrappers
  import opened Text

  /** The white space and line terminators that `parseInt`/`parseFloat` skip
      (ECMAScript StrWhiteSpaceChar: WhiteSpace and LineTerminator). */
  predicate IsJsSpace(c: char) {
    var n := c as int;
    // TAB, VT, FF, SP, NBSP, ZWNBSP
    n == 0x09 || n == 0x0B || n == 0x0C || n == 0x20 || n == 0xA0 || n == 0xFEFF
    // LF, CR, LS, PS
    || n == 0x0A || n == 0x0D || n == 0x2028 || n == 0x2029
    // the other space separators (Unicode category Zs)
    || n == 0x1680 || (0x2000 <= n <= 0x200A) || n == 0x202F || n == 0x205F || n == 0x3000
  }

  /** The position of the first character from `i` on that is not white
      space (`trimStart`). */
  function SkipSpaces(s: string, i: nat): (j: nat)
    requires i <= |s|
    ensures i <= j <= |s|
    decreases |s| - i
  {
    if i < |s| && IsJsSpace(s[i]) then SkipSpaces(s, i + 1) else i
  }

  /** The end of the run of decimal digits that starts at `i`. */
  function DigitsEnd(s: string, i: nat): (j: nat)
    requires i <= |s|
    ensures i <= j <= |s|
    decreases |s| - i
  {
    if i < |s| && IsDigit(s[i]) then DigitsEnd(s, i + 1) else i
  }

  predicate IsHexDigit(c: char) {
    IsDigit(c) || 'a' <= c <= 'f' || 'A' <= c <= 'F'
  }

  /** The value of a hexadecimal digit (0 for any other character). */
  function HexDigitValue(c: char): (d: nat)
    ensures d < 16
  {
    if IsDigit(c) then DigitValue(c)
    else if 'a' <= c <= 'f' then c as int - 'a' as int + 10
    else if 'A' <= c <= 'F' then c as int - 'A' as int + 10
    else 0
  }

  /** The end of the run of hexadecimal digits that starts at `i`. */
  function HexEnd(s: string, i: nat): (j: nat)
    requires i <= |s|
    ensures i <= j <= |s|
    decreases |s| - i
  {
    if i < |s| && IsHexDigit(s[i]) then HexEnd(s, i + 1) else i
  }

  /** The value of the hexadecimal digits `s[i..j]`. */
  function HexAt(s: string, i: nat, j: nat): nat
    requires i <= j <= |s|
    decreases j - i
  {
    if j == i then 0 else HexAt(s, i, j - 1) * 16 + HexDigitValue(s[j - 1])
  }

  /** An optional `+` or `-` at `i`. */
  predicate SignAt(s: string, i: nat) {
    i < |s| && (s[i] == '+' || s[i] == '-')
  }

  predicate NegativeAt(s: string, i: nat) {
    i < |s| && s[i] == '-'
  }

  /** `parseInt(s)` without a radix: skip white space, an optional sign, then a
      `0x`/`0X` prefix selects base 16; the longest run of digits of the base
      is read; no digit at all gives NaN. */
  function ParseInt(s: string): Option<int> {
    var i := SkipSpaces(s, 0);
    var neg := NegativeAt(s, i);
    var j := if SignAt(s, i) then i + 1 else i;
    if j + 2 <= |s| && s[j] == '0' && (s[j + 1] == 'x' || s[j + 1] == 'X') then
      var k := HexEnd(s, j + 2);
      if k == j + 2 then None
      else Some(if neg then -(HexAt(s, j + 2, k) as int) else HexAt(s, j + 2, k))
    else
      var k := DigitsEnd(s, j);
      if k == j then None
      else Some(if neg then -(DigitsValueAt(s, j, k) as int) else DigitsValueAt(s, j, k))
  }

  function Pow10(e: nat): (p: nat)
    ensures p >= 1
  {
    if e == 0 then 1 else 10 * Pow10(e - 1)
  }

  /** `10^e` for any integer exponent. */
  function Scale(e: int): (r: real)
    ensures r > 0.0
  {
    if e >= 0 then Pow10(e) as real else 1.0 / (Pow10(-e) as real)
  }

  /** The exponent part of a decimal literal at `i` (`e`/`E`, an optional
      sign, at least one digit); 0 when there is none. */
  function ExponentAt(s: string, i: nat): int
    requires i <= |s|
  {
    if i < |s| && (s[i] == 'e' || s[i] == 'E') then
      var neg := NegativeAt(s, i + 1);
      var j := if SignAt(s, i + 1) then i + 2 else i + 1;
      var k := DigitsEnd(s, j);
      if k == j then 0 else if neg then -(DigitsValueAt(s, j, k) as int) else DigitsValueAt(s, j, k)
    else 0
  }

  /** The literal `Infinity` starts at `i`. */
  predicate InfinityAt(s: string, i: nat) {
    i + 8 <= |s| && s[i] == 'I' && s[i + 1] == 'n' && s[i + 2] == 'f' && s[i + 3] == 'i'
    && s[i + 4] == 'n' && s[i + 5] == 'i' && s[i + 6] == 't' && s[i + 7] == 'y'
  }

  /** The value of an unsigned StrDecimalLiteral at `i`: digits with an
      optional `.` fraction (at least one digit in all) and an optional
      exponent, or `Infinity` (not finite); no literal gives NaN. */
  function UnsignedDecimalAt(s: string, i: nat): Option<real>
    requires i <= |s|
  {
    if InfinityAt(s, i) then None
    else
      var k := DigitsEnd(s, i);
      var hasPoint := k < |s| && s[k] == '.';
      var e := if hasPoint then DigitsEnd(s, k + 1) else k;
      if k == i && (!hasPoint || e == k + 1) then None
      else if hasPoint then
        Some((DigitsValueAt(s, i, k) as real + DigitsValueAt(s, k + 1, e) as real / Pow10(e - k - 1) as real)
             * Scale(ExponentAt(s, e)))
      else Some(DigitsValueAt(s, i, k) as real * Scale(ExponentAt(s, k)))
  }

  /** `parseFloat(s)`: white space, an optional sign, then the longest prefix
      that is an unsigned decimal literal. */
  function ParseFloat(s: string): Option<real> {
    var i := SkipSpaces(s, 0);
    var neg := NegativeAt(s, i);
    var j := if SignAt(s, i) then i + 1 else i;
    match UnsignedDecimalAt(s, j)
    case None => None
    case Some(m) => Some(if neg then -m else m)
  }

  /** The value of `<whole>.<frac>`. */
  function DecimalValue(whole: string, frac: string): real
    requires AllDigits(whole) && AllDigits(frac)
  {
    DigitsValue(whole) as real + DigitsValue(frac) as real / Pow10(|frac|) as real
  }

  /** `Math.min` of two finite numbers: the smaller one. */
  function Min(a: real, b: real): (m: real)
    ensures m <= a && m <= b && (m == a || m == b)
  {
    if a <= b then a else b
  }

  /** `Math.max` of two finite numbers: the larger one. */
  function Max(a: real, b: real): (m: real)
    ensures m >= a && m >= b && (m == a || m == b)
  {
    if a >= b then a else b
  }

  /** `Math.trunc`. */
  function Trunc(x: real): (n: int)
    ensures x >= 0.0 ==> n == x.Floor
    ensures x < 0.0 ==> n == -((-x).Floor)
  {
    if x >= 0.0 then x.Floor else -((-x).Floor)
  }

  /** JavaScript's `x % y` on numbers: the remainder of truncating division,
      with the sign of `x`. */
  function Rem(x: real, y: real): real
    requires y != 0.0
  {
    x - y * Trunc(x / y) as real
  }

  lemma MulNonNegative(a: real, b: real)
    requires a >= 0.0 && b >= 0.0
    ensures a * b >= 0.0
  {}

  /** Multiplying by a positive number keeps the sign. */
  lemma ProductSign(a: real, b: real)
    requires b > 0.0
    ensures a >= 0.0 <==> a * b >= 0.0
    ensures a > 0.0 <==> a * b > 0.0
  {
    if a >= 0.0 {
      MulNonNegative(a, b);
      assert a > 0.0 ==> a * b > 0.0;
    } else {
      assert (-a) * b > 0.0;
    }
  }

  /** `Math.floor(t / d)` for a non-negative `t` and a positive integer `d`
      is the integer quotient of `Math.floor(t)` by `d`. */
  lemma FloorDiv(t: real, d: int)
    requires t >= 0.0 && d > 0
    ensures (t / d as real).Floor == t.Floor / d
  {
    var x := t / d as real;
    var dr := d as real;
    assert x * dr == t;
    var n := t.Floor;
    var q := n / d;
    var r := n % d;
    assert n == q * d + r && 0 <= r < d;
    assert (x - q as real) * dr == t - (q * d) as real;
    ProductSign(x - q as real, dr);
    assert (q as real + 1.0 - x) * dr == (q * d + d) as real - t;
    ProductSign(q as real + 1.0 - x, dr);
  }

  /** For non-negative operands `%` is the Euclidean remainder. */
  lemma RemNonNegative(x: real, y: real)
    requires x >= 0.0 && y > 0.0
    ensures Rem(x, y) == x - y * (x / y).Floor as real
    ensures 0.0 <= Rem(x, y) < y
  {
    var q := x / y;
    MulNonNegative(x, 1.0 / y);
    assert q >= 0.0;
    var n := q.Floor;
    assert Trunc(q) == n;
    assert n as real <= q < n as real + 1.0;
    MulNonNegative(q - n as real, y);
    assert (q - n as real) * y == x - y * n as real;
    MulNonNegative(n as real + 1.0 - q, y);
    assert (n as real + 1.0 - q) * y == y * n as real + y - x;
    assert (n as real + 1.0 - q) * y != 0.0;
  }

  // ---------------------------------------------------------------------
  // Reading numerals

  /** The digits `d`, written into `s` from position `i` on and followed by
      a non-digit or by the end, are the run that `DigitsEnd` finds. */
  lemma {:induction false} DigitsEndOf(s: string, i: nat, d: string)
    requires i + |d| <= |s| && AllDigits(d)
    requires forall k | i <= k < i + |d| :: s[k] == d[k - i]
    requires i + |d| < |s| ==> !IsDigit(s[i + |d|])
    ensures DigitsEnd(s, i) == i + |d|
    decreases |d|
  {
    if d != [] {
      assert s[i] == d[0];
      DigitsEndOf(s, i + 1, d[1..]);
    }
  }

  /** A numeral `w` at the head of `s`, followed by a non-digit or by
      nothing, is read whole. */
  lemma {:induction false} WholePart(s: string, w: string, rest: string)
    requires s == w + rest && AllDigits(w)
    requires rest != [] ==> !IsDigit(rest[0])
    ensures DigitsEnd(s, 0) == |w|
    ensures DigitsValueAt(s, 0, |w|) == DigitsValue(w)
  {
    assert |w| < |s| ==> s[|w|] == rest[0];
    DigitsEndOf(s, 0, w);
    DigitsValueAtOf(s, 0, w, |w|);
  }

  /** A numeral `f` at the end of `s` is read whole. */
  lemma {:induction false} TailPart(s: string, p: string, f: string)
    requires s == p + f && AllDigits(f)
    ensures DigitsEnd(s, |p|) == |s|
    ensures DigitsValueAt(s, |p|, |s|) == DigitsValue(f)
  {
    DigitsEndOf(s, |p|, f);
    DigitsValueAtOf(s, |p|, f, |f|);
  }

  /** A numeral of decimal digits parses as its value. */
  lemma ParseIntOfDigits(d: string)
    requires d != [] && AllDigits(d)
    ensures ParseInt(d) == Some(DigitsValue(d) as int)
  {
    assert IsDigit(d[0]);
    assert SkipSpaces(d, 0) == 0;
    assert !SignAt(d, 0) && !NegativeAt(d, 0);
    assert |d| >= 2 ==> IsDigit(d[1]);
    assert d + [] == d;
    WholePart(d, d, []);
  }

  /** A literal of digits alone has their value. */
  lemma UnsignedDecimalOfDigits(w: string)
    requires w != [] && AllDigits(w)
    ensures UnsignedDecimalAt(w, 0) == Some(DigitsValue(w) as real)
  {
    assert IsDigit(w[0]);
    assert !InfinityAt(w, 0);
    assert w + [] == w;
    WholePart(w, w, []);
    assert ExponentAt(w, |w|) == 0;
    assert Scale(0) == 1.0;
  }

  /** `parseFloat` of a numeral of digits is its value. */
  lemma ParseFloatOfDigits(w: string)
    requires w != [] && AllDigits(w)
    ensures ParseFloat(w) == Some(DigitsValue(w) as real)
  {
    assert IsDigit(w[0]);
    assert SkipSpaces(w, 0) == 0;
    assert !SignAt(w, 0) && !NegativeAt(w, 0);
    UnsignedDecimalOfDigits(w);
  }

  /** A literal "<digits>.<digits>" has the decimal value, exactly. */
  lemma UnsignedDecimalOf(w: string, f: string)
    requires w != [] && AllDigits(w) && AllDigits(f)
    ensures UnsignedDecimalAt(w + "." + f, 0) == Some(DecimalValue(w, f))
  {
    var s := w + "." + f;
    var k := |w|;
    assert s[0] == w[0] && IsDigit(w[0]);
    assert !InfinityAt(s, 0);
    assert s == w + ("." + f);
    WholePart(s, w, "." + f);
    assert s[k] == '.';
    TailPart(s, w + ".", f);
    assert ExponentAt(s, |s|) == 0;
    assert Scale(0) == 1.0;
  }

  /** `parseFloat("<digits>.<digits>")` is the decimal value, exactly. */
  lemma ParseFloatOfDecimal(w: string, f: string)
    requires w != [] && AllDigits(w) && AllDigits(f)
    ensures ParseFloat(w + "." + f) == Some(DecimalValue(w, f))
  {
    var s := w + "." + f;
    assert s[0] == w[0] && IsDigit(w[0]);
    assert SkipSpaces(s, 0) == 0;
    assert !SignAt(s, 0) && !NegativeAt(s, 0);
    UnsignedDecimalOf(w, f);
  }
}
