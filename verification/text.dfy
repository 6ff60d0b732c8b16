/** Text and sequence helpers that stand for the JavaScript built-ins the
    editor relies on: `Number.prototype.toString` on integers,
    `String.prototype.padStart`, `String.prototype.split` with a one-character
    separator, `Array.prototype.join`, and the stable `Array.prototype.sort`
    driven by a numeric key (`(a, b) => key(a) - key(b)`). */
module Text {

  predicate IsDigit(c: char) { '0' <= c <= '9' }

  predicate AllDigits(s: string) { forall i | 0 <= i < |s| :: IsDigit(s[i]) }

  function DigitValue(c: char): (d: nat)
    requires IsDigit(c)
    ensures d < 10
  {
    c as int - '0' as int
  }

  function DigitChar(d: nat): (c: char)
    requires d < 10
    ensures IsDigit(c) && DigitValue(c) == d
  {
    (d + '0' as int) as char
  }

  /** The value of a decimal digit (0 for any other character). */
  function DecimalDigitValue(c: char): (d: nat)
    ensures d < 10
  {
    if IsDigit(c) then DigitValue(c) else 0
  }

  /** The value of the decimal numeral `s[i..j]`, most significant digit
      first. */
  function DigitsValueAt(s: string, i: nat, j: nat): nat
    requires i <= j <= |s|
    decreases j - i
  {
    if j == i then 0 else DigitsValueAt(s, i, j - 1) * 10 + DecimalDigitValue(s[j - 1])
  }

  /** The value of a numeral of decimal digits. */
  function DigitsValue(s: string): nat {
    DigitsValueAt(s, 0, |s|)
  }

  /** The digits `d`, written into `s` from position `i` on, have the same
      value there, prefix by prefix. */
  lemma {:induction false} DigitsValueAtOf(s: string, i: nat, d: string, j: nat)
    requires j <= |d| && i + |d| <= |s|
    requires forall k | i <= k < i + |d| :: s[k] == d[k - i]
    ensures DigitsValueAt(s, i, i + j) == DigitsValueAt(d, 0, j)
  {
    if j > 0 {
      DigitsValueAtOf(s, i, d, j - 1);
      assert s[i + j - 1] == d[i + j - 1 - i];
    }
  }

  /** Zeros in front of position `m` add nothing to the value. */
  lemma {:induction false} ZerosValue(x: string, m: nat, j: nat)
    requires m <= j <= |x|
    requires forall k | 0 <= k < m :: x[k] == '0'
    ensures DigitsValueAt(x, 0, j) == DigitsValueAt(x, m, j)
  {
    if j > m {
      ZerosValue(x, m, j - 1);
    } else {
      ZeroPrefixValue(x, j);
    }
  }

  lemma {:induction false} ZeroPrefixValue(x: string, j: nat)
    requires j <= |x|
    requires forall k | 0 <= k < j :: x[k] == '0'
    ensures DigitsValueAt(x, 0, j) == 0
  {
    if j > 0 {
      ZeroPrefixValue(x, j - 1);
    }
  }

  /** `n.toString()` for a non-negative integer: the shortest decimal numeral. */
  function NatToString(n: nat): (s: string)
    ensures 1 <= |s| && AllDigits(s)
  {
    if n < 10 then [DigitChar(n)] else NatToString(n / 10) + [DigitChar(n % 10)]
  }

  /** `i.toString()` for any integer. */
  function IntToString(i: int): (s: string)
    ensures 1 <= |s|
    ensures i >= 0 ==> AllDigits(s)
    ensures i < 0 ==> s[0] == '-' && forall k | 1 <= k < |s| :: IsDigit(s[k])
  {
    if i < 0 then "-" + NatToString(-i) else NatToString(i)
  }

  /** Reading back the numeral that `NatToString` writes gives the number. */
  lemma {:induction false} NatToStringValue(n: nat)
    ensures DigitsValue(NatToString(n)) == n
  {
    if n >= 10 {
      var p := NatToString(n / 10);
      DigitsValueAtOf(NatToString(n), 0, p, |p|);
      NatToStringValue(n / 10);
    }
  }

  /** A number below `10^k` is written with at most `k` digits (k = 1, 2, 3). */
  lemma {:induction false} NatToStringShort(n: nat)
    ensures n < 10 ==> |NatToString(n)| == 1
    ensures n < 100 ==> |NatToString(n)| <= 2
    ensures n < 1000 ==> |NatToString(n)| <= 3
  {
    if n >= 10 {
      NatToStringShort(n / 10);
    }
  }

  /** `s.padStart(width, fill)`: fills on the left up to `width` characters. */
  function PadStart(s: string, width: nat, fill: char): (r: string)
    ensures |r| == if |s| < width then width else |s|
    decreases width - |s|
  {
    if |s| >= width then s else PadStart([fill] + s, width, fill)
  }

  /** The padded text is the fill repeated, then the text itself. */
  lemma {:induction false} PadStartParts(s: string, width: nat, fill: char)
    ensures var r := PadStart(s, width, fill);
      && r[|r| - |s|..] == s
      && forall i | 0 <= i < |r| - |s| :: r[i] == fill
    decreases width - |s|
  {
    if |s| < width {
      PadStartParts([fill] + s, width, fill);
      var r := PadStart(s, width, fill);
      assert r == PadStart([fill] + s, width, fill);
      assert r[|r| - |s| - 1..] == [fill] + s;
      assert r[|r| - |s|..] == ([fill] + s)[1..];
    }
  }

  /** Leading zeros do not change the value of a numeral. */
  lemma {:induction false} LeadingZerosValue(z: string, s: string)
    requires forall i | 0 <= i < |z| :: z[i] == '0'
    requires AllDigits(s)
    ensures AllDigits(z + s) && DigitsValue(z + s) == DigitsValue(s)
  {
    var x := z + s;
    ZerosValue(x, |z|, |x|);
    DigitsValueAtOf(x, |z|, s, |s|);
  }

  /** A numeral padded with zeros on the left still reads as the number. */
  lemma {:induction false} PaddedNumeralValue(n: nat, width: nat)
    ensures AllDigits(PadStart(NatToString(n), width, '0'))
    ensures DigitsValue(PadStart(NatToString(n), width, '0')) == n
  {
    var s := NatToString(n);
    var r := PadStart(s, width, '0');
    PadStartParts(s, width, '0');
    var z := r[..|r| - |s|];
    assert r == z + s;
    LeadingZerosValue(z, s);
    NatToStringValue(n);
  }

  /** The position of the first `sep` at or after `i`, or the length of `s`
      when there is none. */
  function NextSep(s: string, sep: char, i: nat): (j: nat)
    requires i <= |s|
    ensures i <= j <= |s|
    decreases |s| - i
  {
    if i == |s| || s[i] == sep then i else NextSep(s, sep, i + 1)
  }

  /** `s[i..j]`, character by character. */
  function Piece(s: string, i: nat, j: nat): (r: string)
    requires i <= j <= |s|
    ensures |r| == j - i
    decreases j - i
  {
    if i == j then [] else Piece(s, i, j - 1) + [s[j - 1]]
  }

  lemma {:induction false} PieceIsSlice(s: string, i: nat, j: nat)
    requires i <= j <= |s|
    ensures Piece(s, i, j) == s[i..j]
    decreases j - i
  {
    if i < j {
      PieceIsSlice(s, i, j - 1);
      assert s[i..j] == s[i..j - 1] + [s[j - 1]];
    }
  }

  /** The pieces of `s[i..]` between separators. */
  function SplitFrom(s: string, sep: char, i: nat): (parts: seq<string>)
    requires i <= |s|
    ensures |parts| >= 1
    decreases |s| - i
  {
    var j := NextSep(s, sep, i);
    if j == |s| then [Piece(s, i, j)] else [Piece(s, i, j)] + SplitFrom(s, sep, j + 1)
  }

  /** `s.split(sep)` for a one-character separator: the pieces between
      separators, one more piece than there are separators. */
  function Split(s: string, sep: char): (parts: seq<string>)
    ensures |parts| >= 1
  {
    SplitFrom(s, sep, 0)
  }

  /** `parts.join(sep)`. */
  function Join(parts: seq<string>, sep: char): string
    requires |parts| >= 1
  {
    if |parts| == 1 then parts[0] else parts[0] + [sep] + Join(parts[1..], sep)
  }

  /** A position is the next separator when none comes before it. */
  lemma {:induction false} NextSepAt(s: string, sep: char, i: nat, j: nat)
    requires i <= j <= |s|
    requires forall k | i <= k < j :: s[k] != sep
    requires j == |s| || s[j] == sep
    ensures NextSep(s, sep, i) == j
    decreases j - i
  {
    if i < j {
      NextSepAt(s, sep, i + 1, j);
    }
  }

  /** The next separator is one, and none comes before it. */
  lemma {:induction false} NextSepIs(s: string, sep: char, i: nat)
    requires i <= |s|
    ensures var j := NextSep(s, sep, i);
      (j < |s| ==> s[j] == sep) && sep !in s[i..j]
    decreases |s| - i
  {
    if i < |s| && s[i] != sep {
      NextSepIs(s, sep, i + 1);
      var j := NextSep(s, sep, i);
      assert s[i..j] == [s[i]] + s[i + 1..j];
    }
  }

  /** No piece of a split holds the separator. */
  lemma {:induction false} SplitFromPieces(s: string, sep: char, i: nat)
    requires i <= |s|
    ensures forall k | 0 <= k < |SplitFrom(s, sep, i)| :: sep !in SplitFrom(s, sep, i)[k]
    decreases |s| - i
  {
    NextSepIs(s, sep, i);
    var j := NextSep(s, sep, i);
    PieceIsSlice(s, i, j);
    var parts := SplitFrom(s, sep, i);
    if j < |s| {
      SplitFromPieces(s, sep, j + 1);
      var rest := SplitFrom(s, sep, j + 1);
      assert parts == [Piece(s, i, j)] + rest;
      forall k | 0 <= k < |parts| ensures sep !in parts[k] {
        if k > 0 { assert parts[k] == rest[k - 1]; }
      }
    } else {
      assert parts == [Piece(s, i, j)];
    }
  }

  lemma {:induction false} SplitPieces(s: string, sep: char)
    ensures forall k | 0 <= k < |Split(s, sep)| :: sep !in Split(s, sep)[k]
  {
    SplitFromPieces(s, sep, 0);
  }

  /** Joining the pieces of a split gives back the text. */
  lemma {:induction false} JoinSplitFrom(s: string, sep: char, i: nat)
    requires i <= |s|
    ensures Join(SplitFrom(s, sep, i), sep) == s[i..]
    decreases |s| - i
  {
    NextSepIs(s, sep, i);
    var j := NextSep(s, sep, i);
    PieceIsSlice(s, i, j);
    if j < |s| {
      JoinSplitFrom(s, sep, j + 1);
      var parts := SplitFrom(s, sep, i);
      assert parts[1..] == SplitFrom(s, sep, j + 1);
      SliceAround(s, i, j);
    }
  }

  /** `s[i..]` is the part before `j`, the element at `j` and the rest. */
  lemma {:induction false} SliceAround<T>(s: seq<T>, i: nat, j: nat)
    requires i <= j < |s|
    ensures s[i..] == s[i..j] + [s[j]] + s[j + 1..]
  {
    var r := s[i..j] + [s[j]] + s[j + 1..];
    assert |r| == |s| - i;
    forall k | 0 <= k < |r| ensures r[k] == s[i + k] {
      if k < j - i {
      } else if k == j - i {
      } else {
        assert r[k] == s[j + 1..][k - (j - i) - 1];
      }
    }
  }

  lemma {:induction false} JoinSplit(s: string, sep: char)
    ensures Join(Split(s, sep), sep) == s
  {
    JoinSplitFrom(s, sep, 0);
  }

  /** In `s == p + a + r`, with no separator in `a` and `r` empty or starting
      with one, the piece of `s` after `p` is `a`, and what follows it is the
      split of `r` without its separator. */
  lemma {:induction false} FirstPieceEnds(s: string, p: string, a: string, r: string, sep: char)
    requires s == p + a + r
    requires sep !in a
    requires r == [] || r[0] == sep
    ensures r == [] ==> SplitFrom(s, sep, |p|) == [a]
    ensures r != [] ==> SplitFrom(s, sep, |p|) == [a] + SplitFrom(s, sep, |p| + |a| + 1)
  {
    forall k | |p| <= k < |p| + |a| ensures s[k] != sep {
      assert s[k] == a[k - |p|];
    }
    NextSepAt(s, sep, |p|, |p| + |a|);
    assert s[|p|..|p| + |a|] == a;
    PieceIsSlice(s, |p|, |p| + |a|);
  }

  /** A text without the separator is a single piece. */
  lemma {:induction false} SplitSingle(s: string, sep: char)
    requires sep !in s
    ensures Split(s, sep) == [s]
  {
    assert s == [] + s + [];
    FirstPieceEnds(s, [], s, [], sep);
  }

  /** Two separator-free pieces joined by the separator split back. */
  lemma {:induction false} SplitTwoPieces(a: string, b: string, sep: char)
    requires sep !in a && sep !in b
    ensures Split(a + [sep] + b, sep) == [a, b]
  {
    var s := a + [sep] + b;
    assert s == [] + a + ([sep] + b);
    FirstPieceEnds(s, [], a, [sep] + b, sep);
    assert s == (a + [sep]) + b + [];
    FirstPieceEnds(s, a + [sep], b, [], sep);
  }

  /** Three separator-free pieces joined by the separator split back. */
  lemma {:induction false} SplitThreePieces(a: string, b: string, c: string, sep: char)
    requires sep !in a && sep !in b && sep !in c
    ensures Split(a + [sep] + b + [sep] + c, sep) == [a, b, c]
  {
    var parts := [a, b, c];
    assert parts[1..] == [b, c] && [b, c][1..] == [c];
    assert Join([c], sep) == c;
    assert Join([b, c], sep) == b + [sep] + c;
    assert Join(parts, sep) == a + [sep] + (b + [sep] + c);
    assert a + [sep] + (b + [sep] + c) == a + [sep] + b + [sep] + c;
    SplitJoin(parts, sep);
  }

  /** Separator-free pieces joined by the separator and placed after a
      prefix split back, from the end of the prefix on, into those pieces. */
  lemma {:induction false} SplitFromJoin(p: string, parts: seq<string>, sep: char)
    requires |parts| >= 1
    requires forall k | 0 <= k < |parts| :: sep !in parts[k]
    ensures SplitFrom(p + Join(parts, sep), sep, |p|) == parts
    decreases |parts|
  {
    var a := parts[0];
    assert sep !in a;
    if |parts| == 1 {
      assert p + Join(parts, sep) == p + a + [];
      FirstPieceEnds(p + Join(parts, sep), p, a, [], sep);
    } else {
      var tail := parts[1..];
      assert forall k | 0 <= k < |tail| :: sep !in tail[k] by {
        forall k | 0 <= k < |tail| ensures sep !in tail[k] {
          assert tail[k] == parts[k + 1];
        }
      }
      var rest := Join(tail, sep);
      assert Join(parts, sep) == a + [sep] + rest;
      SplitFromJoin(p + a + [sep], tail, sep);
      SplitFromStep(p, a, rest, sep, tail);
      assert [a] + tail == parts;
    }
  }

  /** A separator-free piece after a prefix, then the separator, then a
      rest whose split is known: the split has that piece in front. */
  lemma {:induction false} SplitFromStep(p: string, a: string, rest: string, sep: char, tail: seq<string>)
    requires sep !in a
    requires SplitFrom(p + a + [sep] + rest, sep, |p + a + [sep]|) == tail
    ensures SplitFrom(p + (a + [sep] + rest), sep, |p|) == [a] + tail
  {
    JoinRegroup(p, a, rest, sep);
    FirstPieceEnds(p + (a + [sep] + rest), p, a, [sep] + rest, sep);
  }

  /** The two groupings of a prefix, a piece, the separator and the rest. */
  lemma {:induction false} JoinRegroup(p: string, a: string, rest: string, sep: char)
    ensures p + (a + [sep] + rest) == p + a + ([sep] + rest)
    ensures p + (a + [sep] + rest) == (p + a + [sep]) + rest
    ensures |p + a + [sep]| == |p| + |a| + 1
  {
  }

  /** Separator-free pieces joined by the separator split back into the
      same pieces: the converse of `JoinSplit`. */
  lemma {:induction false} SplitJoin(parts: seq<string>, sep: char)
    requires |parts| >= 1
    requires forall k | 0 <= k < |parts| :: sep !in parts[k]
    ensures Split(Join(parts, sep), sep) == parts
  {
    SplitFromJoin([], parts, sep);
    assert [] + Join(parts, sep) == Join(parts, sep);
  }

  /** Sorted by the numeric key, ascending. */
  predicate SortedBy<T>(s: seq<T>, key: T -> real) {
    forall i, j | 0 <= i < j < |s| :: key(s[i]) <= key(s[j])
  }

  /** The elements with key `k`, in their order of appearance. */
  function WithKey<T>(s: seq<T>, key: T -> real, k: real): seq<T> {
    if s == [] then []
    else if key(s[0]) == k then [s[0]] + WithKey(s[1..], key, k)
    else WithKey(s[1..], key, k)
  }

  /** Puts `x` in front of the first element whose key is not smaller. */
  function InsertBy<T>(x: T, s: seq<T>, key: T -> real): seq<T> {
    if s == [] || key(x) <= key(s[0]) then [x] + s else [s[0]] + InsertBy(x, s[1..], key)
  }

  /** `[...s].sort((a, b) => key(a) - key(b))`: the stable sort of ECMAScript 2019. */
  function SortBy<T>(s: seq<T>, key: T -> real): seq<T> {
    if s == [] then [] else InsertBy(s[0], SortBy(s[1..], key), key)
  }

  /** A lower bound on the keys of `x` and of `s` bounds the keys after the insertion. */
  lemma {:induction false} InsertByBound<T>(x: T, s: seq<T>, key: T -> real, lo: real)
    requires lo <= key(x)
    requires forall i | 0 <= i < |s| :: lo <= key(s[i])
    ensures forall i | 0 <= i < |InsertBy(x, s, key)| :: lo <= key(InsertBy(x, s, key)[i])
  {
    if s != [] && key(s[0]) < key(x) {
      InsertByBound(x, s[1..], key, lo);
    }
  }

  lemma {:induction false} InsertBySorted<T>(x: T, s: seq<T>, key: T -> real)
    requires SortedBy(s, key)
    ensures SortedBy(InsertBy(x, s, key), key)
  {
    if s != [] && key(s[0]) < key(x) {
      var t := InsertBy(x, s[1..], key);
      InsertBySorted(x, s[1..], key);
      InsertByBound(x, s[1..], key, key(s[0]));
      var r := [s[0]] + t;
      forall i, j | 0 <= i < j < |r| ensures key(r[i]) <= key(r[j]) {
        if i == 0 {
          assert r[j] == t[j - 1];
        } else {
          assert r[i] == t[i - 1] && r[j] == t[j - 1];
        }
      }
    }
  }

  lemma {:induction false} InsertByMultiset<T>(x: T, s: seq<T>, key: T -> real)
    ensures multiset(InsertBy(x, s, key)) == multiset{x} + multiset(s)
  {
    if s != [] && key(s[0]) < key(x) {
      InsertByMultiset(x, s[1..], key);
      assert s == [s[0]] + s[1..];
    }
  }

  lemma {:induction false} InsertByWithKey<T>(x: T, s: seq<T>, key: T -> real, k: real)
    ensures WithKey(InsertBy(x, s, key), key, k)
         == if key(x) == k then [x] + WithKey(s, key, k) else WithKey(s, key, k)
  {
    if s == [] || key(x) <= key(s[0]) {
      assert ([x] + s)[1..] == s;
    } else {
      InsertByWithKey(x, s[1..], key, k);
      assert ([s[0]] + InsertBy(x, s[1..], key))[1..] == InsertBy(x, s[1..], key);
    }
  }

  lemma {:induction false} MultisetCons<T>(s: seq<T>)
    requires s != []
    ensures multiset(s) == multiset{s[0]} + multiset(s[1..])
  {
    assert s == [s[0]] + s[1..];
  }

  /** The sort orders by key, keeps every element, and keeps elements with
      equal keys in their original order (stability). */
  lemma {:induction false} SortByFacts<T>(s: seq<T>, key: T -> real, k: real)
    ensures SortedBy(SortBy(s, key), key)
    ensures multiset(SortBy(s, key)) == multiset(s)
    ensures |SortBy(s, key)| == |s|
    ensures WithKey(SortBy(s, key), key, k) == WithKey(s, key, k)
  {
    if s != [] {
      SortByFacts(s[1..], key, k);
      InsertBySorted(s[0], SortBy(s[1..], key), key);
      InsertByMultiset(s[0], SortBy(s[1..], key), key);
      InsertByWithKey(s[0], SortBy(s[1..], key), key, k);
      MultisetCons(s);
    }
    assert |SortBy(s, key)| == |multiset(SortBy(s, key))|;
  }
}
