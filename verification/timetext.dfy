/** The clock texts of the editor: the `h:mm:ss.mmm` text of the cut
    timeline and the export controls, the `h:mm:ss` text of the file list,
    the `m:ss` text of the arrangement timeline and the export dialog, and
    the parser that reads typed times back. */
module TimeText {
  import opened Wrappers
  import opened Text
  import opened JsNumber

  /** `n.toString().padStart(width, '0')` */
  function Padded(n: int, width: nat): string {
    PadStart(IntToString(n), width, '0')
  }

  /** The four fields `formatTime` computes from a number of seconds, with
      `Math.floor` and JavaScript's `%`. */
  datatype ClockFields = ClockFields(h: int, m: int, s: int, ms: int)

  function Fields(t: real): ClockFields {
    ClockFields(
      (t / 3600.0).Floor,
      (Rem(t, 3600.0) / 60.0).Floor,
      Rem(t, 60.0).Floor,
      (Rem(t, 1.0) * 1000.0).Floor)
  }

  /** `formatTime` of the cut timeline, which is also `formatDuration` of the
      export controls: `m:ss.mmm`, with an `h:` in front and the minutes
      padded once there is at least one whole hour. */
  function FormatClock(t: real): string {
    ClockText(Fields(t))
  }

  /** The `formatTime` text of given fields. */
  function ClockText(f: ClockFields): string {
    var sec := Padded(f.s, 2) + "." + Padded(f.ms, 3);
    if f.h > 0 then IntToString(f.h) + ":" + Padded(f.m, 2) + ":" + sec
    else IntToString(f.m) + ":" + sec
  }

  /** `formatDuration` of the file list: `m:ss`, or `h:mm:ss` once there is
      at least one whole hour. */
  function FormatHms(t: real): string {
    HmsText(Fields(t))
  }

  /** The file-list text of given fields. */
  function HmsText(f: ClockFields): string {
    if f.h > 0 then IntToString(f.h) + ":" + Padded(f.m, 2) + ":" + Padded(f.s, 2)
    else IntToString(f.m) + ":" + Padded(f.s, 2)
  }

  /** `formatTime` of the arrangement timeline and of the export dialog:
      whole minutes, then the seconds padded to two digits. */
  function FormatMinSec(t: real): string {
    IntToString((t / 60.0).Floor) + ":" + Padded(Rem(t, 60.0).Floor, 2)
  }

  /** `h * 3600 + m * 60 + s` over parse results; not finite if any is not. */
  function HoursMinutesSeconds(h: Option<int>, m: Option<int>, s: Option<real>): Option<real> {
    if h.Some? && m.Some? && s.Some?
    then Some(h.value as real * 3600.0 + m.value as real * 60.0 + s.value)
    else None
  }

  /** `m * 60 + s` over parse results; not finite if either is not. */
  function MinutesSeconds(m: Option<int>, s: Option<real>): Option<real> {
    if m.Some? && s.Some? then Some(m.value as real * 60.0 + s.value) else None
  }

  /** `parseTimeString`: `h:m:s` or `m:s`, hours and minutes read with
      `parseInt` and seconds with `parseFloat`; any other number of
      `:`-separated fields reads the whole text with `parseFloat`. `None`
      is a result that is not a finite number. */
  function ParseTimeString(str: string): Option<real> {
    var parts := Split(str, ':');
    if |parts| == 3 then HoursMinutesSeconds(ParseInt(parts[0]), ParseInt(parts[1]), ParseFloat(parts[2]))
    else if |parts| == 2 then MinutesSeconds(ParseInt(parts[0]), ParseFloat(parts[1]))
    else ParseFloat(str)
  }

  // ---------------------------------------------------------------------
  // The fields of a non-negative time

  /** For `t >= 0` the fields are the hours, the minutes within the hour, the
      seconds within the minute and the milliseconds within the second of
      `t`, each truncated. */
  lemma {:induction false} FieldsOfNonNegative(t: real)
    requires t >= 0.0
    ensures var f := Fields(t); var n := t.Floor;
      && f.h == n / 3600 && 0 <= f.h
      && f.m == (n % 3600) / 60 && 0 <= f.m < 60
      && f.s == n % 60 && 0 <= f.s < 60
      && f.ms == (t * 1000.0).Floor - 1000 * n && 0 <= f.ms < 1000
      && 3600 * f.h + 60 * f.m + f.s == n
  {
    FloorDiv(t, 3600);
    MinuteField(t);
    SecondField(t);
    MilliField(t);
    ClockDigits(t.Floor);
  }

  /** The minutes within the hour. */
  lemma {:induction false} MinuteField(t: real)
    requires t >= 0.0
    ensures (Rem(t, 3600.0) / 60.0).Floor == (t.Floor % 3600) / 60
  {
    var n := t.Floor;
    FloorDiv(t, 3600);
    RemNonNegative(t, 3600.0);
    var r := Rem(t, 3600.0);
    assert r == t - (3600 * (n / 3600)) as real;
    assert r.Floor == n % 3600;
    FloorDiv(r, 60);
  }

  /** The seconds within the minute. */
  lemma {:induction false} SecondField(t: real)
    requires t >= 0.0
    ensures Rem(t, 60.0).Floor == t.Floor % 60
  {
    var n := t.Floor;
    RemNonNegative(t, 60.0);
    FloorDiv(t, 60);
    assert Rem(t, 60.0) == t - (60 * (n / 60)) as real;
  }

  /** The milliseconds within the second. */
  lemma {:induction false} MilliField(t: real)
    requires t >= 0.0
    ensures (Rem(t, 1.0) * 1000.0).Floor == (t * 1000.0).Floor - 1000 * t.Floor
  {
    var n := t.Floor;
    RemNonNegative(t, 1.0);
    assert t / 1.0 == t;
    assert Rem(t, 1.0) == t - n as real;
    assert Rem(t, 1.0) * 1000.0 == t * 1000.0 - (1000 * n) as real;
  }

  /** Hours, minutes within the hour and seconds within the minute make up
      the whole seconds. */
  lemma {:induction false} ClockDigits(n: int)
    requires n >= 0
    ensures 0 <= (n % 3600) / 60 < 60
    ensures 3600 * (n / 3600) + 60 * ((n % 3600) / 60) + n % 60 == n
  {
    var h, r := n / 3600, n % 3600;
    var m, sec := r / 60, r % 60;
    assert n == 3600 * h + r;
    assert r == 60 * m + sec && 0 <= sec < 60;
    assert n == 60 * (60 * h + m) + sec;
    DivModOf(n, 60, 60 * h + m, sec);
  }

  /** Euclidean division has one quotient and one remainder. */
  lemma {:induction false} DivModOf(n: int, d: int, q: int, r: int)
    requires d > 0 && 0 <= r < d && n == d * q + r
    ensures n / d == q && n % d == r
  {
    var q0, r0 := n / d, n % d;
    assert d * (q - q0) == r0 - r;
    if q > q0 {
      MulAtLeast(d, q - q0);
    } else if q < q0 {
      MulAtLeast(d, q0 - q);
    }
  }

  lemma {:induction false} MulAtLeast(d: int, k: int)
    requires d > 0 && k >= 1
    ensures d * k >= d
  {
    assert d * k == d + d * (k - 1);
  }

  /** The fields of a non-negative time are natural numbers that add up to
      its whole seconds, with the milliseconds the rest below a second. */
  lemma {:induction false} FieldsSum(t: real)
    requires t >= 0.0
    ensures var f := Fields(t);
      && 0 <= f.h && 0 <= f.m && 0 <= f.s && 0 <= f.ms < 1000
      && 3600 * f.h + 60 * f.m + f.s == t.Floor
      && f.ms == (t * 1000.0).Floor - 1000 * t.Floor
  {
    FieldsOfNonNegative(t);
  }

  /** A zero-padded numeral: digits only, never empty, and exactly the
      width when the number has no more digits than that. */
  lemma {:induction false} PaddedShape(n: nat, width: nat)
    ensures var p := Padded(n, width);
      && AllDigits(p) && p != [] && ':' !in p && '.' !in p
      && (n < 100 && width == 2 ==> |p| == 2)
      && (n < 1000 && width == 3 ==> |p| == 3)
  {
    PaddedNumeralValue(n, width);
    NatToStringShort(n);
    NoSeparator(Padded(n, width));
  }

  /** The numeral of a natural number: digits only and never empty. */
  lemma {:induction false} NumeralShape(n: nat)
    ensures var p := IntToString(n); AllDigits(p) && p != [] && ':' !in p && '.' !in p
  {
    NoSeparator(IntToString(n));
  }

  /** A text of three `:`-separated fields is read field by field. */
  lemma {:induction false} ParseThreeParts(str: string, a: string, b: string, c: string)
    requires Split(str, ':') == [a, b, c]
    ensures ParseTimeString(str) == HoursMinutesSeconds(ParseInt(a), ParseInt(b), ParseFloat(c))
  {
  }

  /** A text of two `:`-separated fields is read field by field. */
  lemma {:induction false} ParseTwoParts(str: string, a: string, b: string)
    requires Split(str, ':') == [a, b]
    ensures ParseTimeString(str) == MinutesSeconds(ParseInt(a), ParseFloat(b))
  {
  }

  /** Text without `:` is read as bare seconds by `parseFloat`. */
  lemma {:induction false} ParseBareSeconds(str: string)
    requires ':' !in str
    ensures ParseTimeString(str) == ParseFloat(str)
  {
    SplitSingle(str, ':');
  }

  lemma {:induction false} NoSeparator(d: string)
    requires AllDigits(d)
    ensures ':' !in d && '.' !in d
  {
    forall i | 0 <= i < |d| ensures d[i] != ':' && d[i] != '.' {
      assert IsDigit(d[i]);
    }
  }
}
