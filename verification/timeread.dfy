/** Reading back what the time formatters write. */
module TimeReadBack {
  import opened Wrappers
  import opened Text
  import opened JsNumber
  import opened TimeText

  // ---------------------------------------------------------------------
  // Reading fields back

  /** Fields free of `:` joined by `:` split back into those fields. */
  lemma {:induction false} SplitTwo(a: string, b: string)
    requires ':' !in a && ':' !in b
    ensures Split(a + ":" + b, ':') == [a, b]
  {
    SplitTwoPieces(a, b, ':');
  }

  lemma {:induction false} SplitThree(a: string, b: string, c: string)
    requires ':' !in a && ':' !in b && ':' !in c
    ensures Split(a + ":" + b + ":" + c, ':') == [a, b, c]
  {
    SplitThreePieces(a, b, c, ':');
  }

  /** `d` is a non-empty numeral of decimal digits with value `n`. */
  predicate Numeral(d: string, n: nat) {
    d != [] && AllDigits(d) && DigitsValue(d) == n
  }

  /** The numeral of `n` is one. */
  lemma {:induction false} NumeralOf(n: nat)
    ensures Numeral(IntToString(n), n)
  {
    NatToStringValue(n);
  }

  /** So is the zero-padded numeral, three digits long when the width is
      three and `n` is below 1000. */
  lemma {:induction false} PaddedNumeral(n: nat, width: nat)
    ensures Numeral(Padded(n, width), n)
    ensures n < 1000 && width == 3 ==> |Padded(n, width)| == 3
  {
    PaddedShape(n, width);
    PaddedNumeralValue(n, width);
  }

  /** A literal `<w>.<f>` with a three-digit fraction reads as the value of
      `w` plus thousandths. */
  lemma {:induction false} ReadMillis(w: string, fr: string, s: nat, ms: nat, y: real)
    requires w != [] && AllDigits(w) && DigitsValue(w) == s
    requires AllDigits(fr) && |fr| == 3 && DigitsValue(fr) == ms
    requires y == s as real + ms as real / 1000.0
    ensures ParseFloat(w + "." + fr) == Some(y)
  {
    assert Pow10(3) == 1000;
    assert DecimalValue(w, fr) == y;
    ParseFloatOfDecimal(w, fr);
  }

  // ---------------------------------------------------------------------
  // Round trips and shapes

  /** The time in seconds that clock fields stand for. */
  function ClockSum(f: ClockFields): real {
    f.h as real * 3600.0 + f.m as real * 60.0 + (f.s as real + f.ms as real / 1000.0)
  }

  /** The time in whole seconds that the hour, minute and second fields
      stand for. */
  function HmsSum(f: ClockFields): real {
    f.h as real * 3600.0 + f.m as real * 60.0 + f.s as real
  }

  /** `t` truncated to whole milliseconds. */
  function TruncMillis(t: real): real {
    (t * 1000.0).Floor as real / 1000.0
  }

  /** Truncating to milliseconds stays between 0 and the time itself. */
  lemma {:induction false} TruncMillisBelow(t: real)
    requires t >= 0.0
    ensures 0.0 <= TruncMillis(t) <= t
  {
    var n := (t * 1000.0).Floor;
    assert n as real <= t * 1000.0;
    assert n >= 0;
  }

  /** The fields of a non-negative time are natural numbers, fewer than
      1000 milliseconds, and add up to the time truncated to whole
      milliseconds. */
  lemma {:induction false} ClockValue(t: real)
    requires t >= 0.0
    ensures 0 <= Fields(t).h && 0 <= Fields(t).m && 0 <= Fields(t).s && 0 <= Fields(t).ms < 1000
    ensures ClockSum(Fields(t)) == TruncMillis(t)
  {
    FieldsOfNonNegative(t);
  }

  /** Three `:`-free fields joined by `:` read back as hours, minutes and
      seconds. */
  lemma {:induction false} ReadThreeFields(a: string, b: string, c: string, h: int, m: int, y: real, v: real)
    requires ':' !in a && ':' !in b && ':' !in c
    requires ParseInt(a) == Some(h) && ParseInt(b) == Some(m) && ParseFloat(c) == Some(y)
    requires v == h as real * 3600.0 + m as real * 60.0 + y
    ensures ParseTimeString(a + ":" + b + ":" + c) == Some(v)
  {
    SplitThree(a, b, c);
    ParseThreeParts(a + ":" + b + ":" + c, a, b, c);
  }

  /** Two `:`-free fields joined by `:` read back as minutes and seconds. */
  lemma {:induction false} ReadTwoFields(a: string, b: string, m: int, y: real, v: real)
    requires ':' !in a && ':' !in b
    requires ParseInt(a) == Some(m) && ParseFloat(b) == Some(y)
    requires v == m as real * 60.0 + y
    ensures ParseTimeString(a + ":" + b) == Some(v)
  {
    SplitTwo(a, b);
    ParseTwoParts(a + ":" + b, a, b);
  }

  /** Numerals `m:s` read back as `m * 60 + s`. */
  lemma {:induction false} ReadNumerals2(a: string, b: string, m: nat, s: nat, v: real)
    requires Numeral(a, m) && Numeral(b, s)
    requires v == m as real * 60.0 + s as real
    ensures ParseTimeString(a + ":" + b) == Some(v)
  {
    NoSeparator(a);
    NoSeparator(b);
    ParseIntOfDigits(a);
    ParseFloatOfDigits(b);
    ReadTwoFields(a, b, m, s as real, v);
  }

  /** Numerals `h:m:s` read back as `h * 3600 + m * 60 + s`. */
  lemma {:induction false} ReadNumerals3(a: string, b: string, c: string, h: nat, m: nat, s: nat, v: real)
    requires Numeral(a, h) && Numeral(b, m) && Numeral(c, s)
    requires v == h as real * 3600.0 + m as real * 60.0 + s as real
    ensures ParseTimeString(a + ":" + b + ":" + c) == Some(v)
  {
    NoSeparator(a);
    NoSeparator(b);
    NoSeparator(c);
    ParseIntOfDigits(a);
    ParseIntOfDigits(b);
    ParseFloatOfDigits(c);
    ReadThreeFields(a, b, c, h, m, s as real, v);
  }

  /** The seconds field `<w>.<fr>` with a three-digit fraction has no `:`
      and reads as seconds plus thousandths. */
  lemma {:induction false} ReadSecondsField(w: string, fr: string, s: nat, ms: nat, y: real)
    requires Numeral(w, s) && Numeral(fr, ms) && |fr| == 3
    requires y == s as real + ms as real / 1000.0
    ensures ':' !in w + "." + fr
    ensures ParseFloat(w + "." + fr) == Some(y)
  {
    NoSeparator(w);
    NoSeparator(fr);
    assert ':' !in w + "." + fr;
    ReadMillis(w, fr, s, ms, y);
  }

  /** `m:<w>.<fr>` reads back as minutes, seconds and thousandths. */
  lemma {:induction false} ReadClock2(a: string, w: string, fr: string, m: nat, s: nat, ms: nat, v: real)
    requires Numeral(a, m) && Numeral(w, s) && Numeral(fr, ms) && |fr| == 3
    requires v == m as real * 60.0 + (s as real + ms as real / 1000.0)
    ensures ParseTimeString(a + ":" + (w + "." + fr)) == Some(v)
  {
    NoSeparator(a);
    ParseIntOfDigits(a);
    var y := s as real + ms as real / 1000.0;
    ReadSecondsField(w, fr, s, ms, y);
    ReadTwoFields(a, w + "." + fr, m, y, v);
  }

  /** `h:m:<w>.<fr>` reads back as hours, minutes, seconds and thousandths. */
  lemma {:induction false} ReadClock3(a: string, b: string, w: string, fr: string, h: nat, m: nat, s: nat, ms: nat, v: real)
    requires Numeral(a, h) && Numeral(b, m) && Numeral(w, s) && Numeral(fr, ms) && |fr| == 3
    requires v == h as real * 3600.0 + m as real * 60.0 + (s as real + ms as real / 1000.0)
    ensures ParseTimeString(a + ":" + b + ":" + (w + "." + fr)) == Some(v)
  {
    NoSeparator(a);
    NoSeparator(b);
    ParseIntOfDigits(a);
    ParseIntOfDigits(b);
    var y := s as real + ms as real / 1000.0;
    ReadSecondsField(w, fr, s, ms, y);
    ReadThreeFields(a, b, w + "." + fr, h, m, y, v);
  }

  /** `h:mm:ss.mmm` as the clock text writes it reads back as the time. */
  lemma {:induction false} ReadClockText3(f: ClockFields, text: string, v: real)
    requires 0 < f.h && 0 <= f.m && 0 <= f.s && 0 <= f.ms < 1000
    requires text == IntToString(f.h) + ":" + Padded(f.m, 2) + ":" + (Padded(f.s, 2) + "." + Padded(f.ms, 3))
    requires ClockSum(f) == v
    ensures ParseTimeString(text) == Some(v)
  {
    NumeralOf(f.h);
    PaddedNumeral(f.m, 2);
    PaddedNumeral(f.s, 2);
    PaddedNumeral(f.ms, 3);
    ReadClock3(IntToString(f.h), Padded(f.m, 2), Padded(f.s, 2), Padded(f.ms, 3), f.h, f.m, f.s, f.ms, v);
  }

  /** `m:ss.mmm` as the clock text writes it reads back as the time. */
  lemma {:induction false} ReadClockText2(f: ClockFields, text: string, v: real)
    requires 0 == f.h && 0 <= f.m && 0 <= f.s && 0 <= f.ms < 1000
    requires text == IntToString(f.m) + ":" + (Padded(f.s, 2) + "." + Padded(f.ms, 3))
    requires ClockSum(f) == v
    ensures ParseTimeString(text) == Some(v)
  {
    NumeralOf(f.m);
    PaddedNumeral(f.s, 2);
    PaddedNumeral(f.ms, 3);
    ReadClock2(IntToString(f.m), Padded(f.s, 2), Padded(f.ms, 3), f.m, f.s, f.ms, v);
  }

  /** The clock text of natural fields, with fewer than 1000 milliseconds,
      reads back as the time they stand for. */
  lemma {:induction false} ReadClockFields(f: ClockFields, text: string, v: real)
    requires 0 <= f.h && 0 <= f.m && 0 <= f.s && 0 <= f.ms < 1000
    requires text == ClockText(f)
    requires ClockSum(f) == v
    ensures ParseTimeString(text) == Some(v)
  {
    if f.h > 0 {
      ReadClockText3(f, text, v);
    } else {
      ReadClockText2(f, text, v);
    }
  }

  /** Reading back the clock text of a non-negative time gives the time
      truncated to whole milliseconds. */
  lemma {:induction false} ClockRoundTrip(t: real)
    requires t >= 0.0
    ensures ParseTimeString(FormatClock(t)) == Some(TruncMillis(t))
  {
    ClockValue(t);
    ReadClockFields(Fields(t), FormatClock(t), TruncMillis(t));
  }

  /** `ss.mmm`: two digits, a point and three digits. */
  predicate SecondsShape(x: string) {
    |x| == 6 && x[2] == '.' && AllDigits(x[..2]) && AllDigits(x[3..])
  }

  /** The shape of the clock text of a non-negative time: three fields from
      one hour on and two below it; the minutes (when hours are shown) and
      seconds have two digits, the milliseconds three. */
  lemma {:induction false} ClockShape(t: real)
    requires t >= 0.0
    ensures var parts := Split(FormatClock(t), ':');
      && (|parts| == 3 <==> t >= 3600.0)
      && (|parts| == 2 <==> t < 3600.0)
      && (|parts| == 3 ==> |parts[1]| == 2 && AllDigits(parts[1]))
      && SecondsShape(parts[|parts| - 1])
  {
    var f := Fields(t);
    FieldsOfNonNegative(t);
    FloorDiv(t, 3600);
    assert f.h > 0 <==> t >= 3600.0;
    PaddedShape(f.s, 2);
    PaddedShape(f.ms, 3);
    var sec := Padded(f.s, 2) + "." + Padded(f.ms, 3);
    assert ':' !in sec;
    assert sec[..2] == Padded(f.s, 2) && sec[3..] == Padded(f.ms, 3);
    if f.h > 0 {
      NumeralShape(f.h);
      PaddedShape(f.m, 2);
      SplitThree(IntToString(f.h), Padded(f.m, 2), sec);
    } else {
      NumeralShape(f.m);
      SplitTwo(IntToString(f.m), sec);
    }
  }

  /** `h:mm:ss` as the file list writes it reads back as the whole seconds. */
  lemma {:induction false} ReadHmsText3(f: ClockFields, text: string, v: real)
    requires 0 < f.h && 0 <= f.m && 0 <= f.s
    requires text == IntToString(f.h) + ":" + Padded(f.m, 2) + ":" + Padded(f.s, 2)
    requires HmsSum(f) == v
    ensures ParseTimeString(text) == Some(v)
  {
    NumeralOf(f.h);
    PaddedNumeral(f.m, 2);
    PaddedNumeral(f.s, 2);
    ReadNumerals3(IntToString(f.h), Padded(f.m, 2), Padded(f.s, 2), f.h, f.m, f.s, v);
  }

  /** `m:ss` reads back as the whole seconds. */
  lemma {:induction false} ReadMinSecText(m: nat, s: nat, text: string, v: real)
    requires text == IntToString(m) + ":" + Padded(s, 2)
    requires m as real * 60.0 + s as real == v
    ensures ParseTimeString(text) == Some(v)
  {
    NumeralOf(m);
    PaddedNumeral(s, 2);
    ReadNumerals2(IntToString(m), Padded(s, 2), m, s, v);
  }

  /** The file-list text of natural fields reads back as the whole seconds
      they stand for. */
  lemma {:induction false} ReadHmsFields(f: ClockFields, text: string, v: real)
    requires 0 <= f.h && 0 <= f.m && 0 <= f.s
    requires text == HmsText(f)
    requires HmsSum(f) == v
    ensures ParseTimeString(text) == Some(v)
  {
    if f.h > 0 {
      ReadHmsText3(f, text, v);
    } else {
      ReadMinSecText(f.m, f.s, text, v);
    }
  }

  /** Reading back the file-list duration of a non-negative time gives its
      whole seconds. */
  lemma {:induction false} HmsRoundTrip(t: real)
    requires t >= 0.0
    ensures ParseTimeString(FormatHms(t)) == Some(t.Floor as real)
  {
    HmsValue(t);
    ReadHmsFields(Fields(t), FormatHms(t), t.Floor as real);
  }

  /** The fields of a non-negative time are natural numbers that add up to
      its whole seconds. */
  lemma {:induction false} HmsValue(t: real)
    requires t >= 0.0
    ensures 0 <= Fields(t).h && 0 <= Fields(t).m && 0 <= Fields(t).s
    ensures HmsSum(Fields(t)) == t.Floor as real
  {
    FieldsSum(t);
  }

  /** The file-list duration shows hours exactly from one hour on, and then
      pads the minutes; the seconds always have two digits. */
  lemma {:induction false} HmsShape(t: real)
    requires t >= 0.0
    ensures var parts := Split(FormatHms(t), ':');
      && (|parts| == 3 <==> t >= 3600.0)
      && (|parts| == 2 <==> t < 3600.0)
      && (|parts| == 3 ==> |parts[1]| == 2)
      && |parts[|parts| - 1]| == 2 && AllDigits(parts[|parts| - 1])
  {
    var f := Fields(t);
    FieldsOfNonNegative(t);
    FloorDiv(t, 3600);
    PaddedShape(f.s, 2);
    if f.h > 0 {
      NumeralShape(f.h);
      PaddedShape(f.m, 2);
      SplitThree(IntToString(f.h), Padded(f.m, 2), Padded(f.s, 2));
    } else {
      NumeralShape(f.m);
      SplitTwo(IntToString(f.m), Padded(f.s, 2));
    }
  }

  /** Reading back the `m:ss` text of a non-negative time gives its whole
      seconds. */
  lemma {:induction false} MinSecRoundTrip(t: real)
    requires t >= 0.0
    ensures ParseTimeString(FormatMinSec(t)) == Some(t.Floor as real)
  {
    MinSecValue(t);
    var m := (t / 60.0).Floor;
    var s := Rem(t, 60.0).Floor;
    ReadMinSecText(m, s, FormatMinSec(t), t.Floor as real);
  }

  /** The whole minutes and the whole seconds within the minute of a
      non-negative time add up to its whole seconds. */
  lemma {:induction false} MinSecValue(t: real)
    requires t >= 0.0
    ensures 0 <= (t / 60.0).Floor && 0 <= Rem(t, 60.0).Floor < 60
    ensures (t / 60.0).Floor as real * 60.0 + Rem(t, 60.0).Floor as real == t.Floor as real
  {
    var n := t.Floor;
    FloorDiv(t, 60);
    RemNonNegative(t, 60.0);
    var m := (t / 60.0).Floor;
    assert Rem(t, 60.0) == t - (60 * m) as real;
    assert Rem(t, 60.0).Floor == n - 60 * m;
  }
}
