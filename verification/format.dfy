/** The text the converter's C-library conversions produce: `%u` for face
    indices and counters, `%.6f` for coordinates and normals, `%.3f` for
    colours, together with the `unsigned int` arithmetic of the counters. */
module Format {

  /** 2^32: the counters and face indices are C `unsigned int`s. */
  const U32_LIMIT: int := 0x1_0000_0000

  newtype u32 = x: int | 0 <= x < 0x1_0000_0000

  /** `c += k` on an `unsigned int`: a sum past the largest value wraps
      around by 2^32. */
  function AddWrap(c: u32, k: nat): u32
    requires k < U32_LIMIT
  {
    if c as int + k < U32_LIMIT then (c as int + k) as u32 else (c as int + k - U32_LIMIT) as u32
  }

  /** `n` reduced modulo 2^32: the value an `unsigned int` holds after
      counting to `n` from 0. */
  function Wrap(n: nat): u32
  {
    (n % U32_LIMIT) as u32
  }

  /** Adding `k` to a counter that holds `n` modulo 2^32 gives `n + k`
      modulo 2^32 (`total` names that sum). */
  lemma AddWrapCounts(n: nat, k: nat, total: nat)
    requires k < U32_LIMIT && total == n + k
    ensures AddWrap(Wrap(n), k) == Wrap(total)
  {
  }

  /** `c += k`, `m` times over. */
  function AddedTimes(c: u32, k: nat, m: nat): u32
    requires k < U32_LIMIT
  {
    if m == 0 then c else AddWrap(AddedTimes(c, k, m - 1), k)
  }

  /** `m` additions of `k` to a counter holding `n` modulo 2^32 leave
      `n + k * m` modulo 2^32 (`total` names that sum). */
  lemma {:induction false} AddedTimesCounts(n: nat, k: nat, m: nat, total: nat)
    requires k < U32_LIMIT && total == n + k * m
    ensures AddedTimes(Wrap(n), k, m) == Wrap(total)
  {
    if m > 0 {
      OneMore(k, m);
      AddedTimesCounts(n, k, m - 1, n + k * (m - 1));
      AddWrapCounts(n + k * (m - 1), k, total);
    }
  }

  lemma OneMore(k: nat, m: nat)
    requires m > 0
    ensures k * (m - 1) + k == k * m
  {
  }

  /** How many times `c` occurs in `s`. */
  function Occurrences(s: string, c: char): (n: nat)
    ensures n <= |s|
  {
    if s == [] then 0
    else Occurrences(s[..|s| - 1], c) + (if s[|s| - 1] == c then 1 else 0)
  }

  lemma {:induction false} OccurrencesAppend(a: string, b: string, c: char)
    ensures Occurrences(a + b, c) == Occurrences(a, c) + Occurrences(b, c)
    decreases |b|
  {
    if b == [] {
      assert a + b == a;
    } else {
      assert (a + b)[..|a + b| - 1] == a + b[..|b| - 1];
      OccurrencesAppend(a, b[..|b| - 1], c);
    }
  }

  lemma {:induction false} OccurrencesAbsent(s: string, c: char)
    requires c !in s
    ensures Occurrences(s, c) == 0
  {
    if s != [] {
      assert forall i :: 0 <= i < |s| - 1 ==> s[..|s| - 1][i] == s[i];
      OccurrencesAbsent(s[..|s| - 1], c);
    }
  }

  // ----- decimal numerals (`%u`) -----

  function Pow10(p: nat): (r: nat)
    ensures r >= 1
  {
    if p == 0 then 1 else 10 * Pow10(p - 1)
  }

  predicate IsDigit(ch: char) {
    '0' <= ch <= '9'
  }

  predicate AllDigits(s: string) {
    forall i :: 0 <= i < |s| ==> IsDigit(s[i])
  }

  function DigitChar(d: nat): (ch: char)
    requires d < 10
    ensures IsDigit(ch) && ch as int - '0' as int == d
  {
    ('0' as int + d) as char
  }

  /** The number a string of decimal digits denotes. */
  function DigitsValue(s: string): (v: nat)
    requires AllDigits(s)
  {
    if s == [] then 0
    else 10 * DigitsValue(s[..|s| - 1]) + (s[|s| - 1] as int - '0' as int)
  }

  /** `%u`: the decimal numeral of `n`, without leading zeros. */
  function Decimal(n: nat): (s: string)
    ensures |s| > 0 && AllDigits(s)
    ensures s[0] == '0' <==> n == 0
  {
    if n < 10 then [DigitChar(n)] else Decimal(n / 10) + [DigitChar(n % 10)]
  }

  /** Reading a `%u` numeral back gives the number printed. */
  lemma {:induction false} DecimalRoundTrip(n: nat)
    ensures DigitsValue(Decimal(n)) == n
  {
    if n >= 10 {
      var s := Decimal(n);
      assert s[..|s| - 1] == Decimal(n / 10);
      DecimalRoundTrip(n / 10);
    }
  }

  // ----- fixed-point numerals (`%.6f`, `%.3f`) -----

  function Abs(x: real): (r: real)
    ensures r >= 0.0 && (r == x || r == -x)
  {
    if x < 0.0 then -x else x
  }

  /** `y` with its point moved `places` digits to the right. */
  function Shift(y: real, places: nat): (r: real)
    ensures y >= 0.0 ==> r >= 0.0
  {
    if places == 0 then y else Shift(y, places - 1) * 10.0
  }

  lemma {:induction false} ShiftScales(y: real, places: nat)
    ensures Shift(y, places) == y * Pow10(places) as real
  {
    if places > 0 {
      ShiftScales(y, places - 1);
    }
  }

  /** Rounding to the nearest integer, ties to even: what glibc's printf
      does to the exact value in the default rounding mode. */
  function RoundHalfEven(y: real): (n: nat)
    requires y >= 0.0
    ensures -0.5 <= n as real - y <= 0.5
    ensures y - y.Floor as real == 0.5 ==> n % 2 == 0
  {
    var f := y.Floor;
    var d := y - f as real;
    if d > 0.5 || (d == 0.5 && f % 2 == 1) then f + 1 else f
  }

  /** The integer `%.<places>f` prints in place of `|x|`, in units of the
      last printed decimal place: `|x| * 10^places` rounded. */
  function Scaled(x: real, places: nat): (n: nat)
    ensures -0.5 <= n as real - Shift(Abs(x), places) <= 0.5
  {
    RoundHalfEven(Shift(Abs(x), places))
  }

  /** A digit string, which therefore holds no comma. */
  function NoComma(s: string): (r: string)
    requires AllDigits(s)
    ensures r == s && ',' !in r
  {
    assert forall i :: 0 <= i < |s| ==> s[i] != ',';
    s
  }

  /** The unsigned part of `%.<places>f` for the magnitude `n`, given in
      units of the last printed place: the integer digits and, when
      `places > 0`, a point and the last `places` digits of `n`. */
  function Numeral(n: nat, places: nat): (s: string)
    ensures |s| > places && IsDigit(s[0]) && ',' !in s
  {
    if places == 0 then NoComma(Decimal(n))
    else if places == 1 then NoComma(Decimal(n / 10)) + "." + [DigitChar(n % 10)]
    else Numeral(n / 10, places - 1) + [DigitChar(n % 10)]
  }

  /** `%.<places>f` of the value `x`. */
  function Fixed(x: real, places: nat): (s: string)
    ensures |s| > 0 && ',' !in s
  {
    (if x < 0.0 then "-" else "") + Numeral(Scaled(x, places), places)
  }

  /** A numeral shaped like printf's `%.<places>f` output: an optional
      minus sign, at least one integer digit, a point and exactly `places`
      fraction digits. */
  predicate IsFixedNumeral(s: string, places: nat) {
    var start := if |s| > 0 && s[0] == '-' then 1 else 0;
    && places > 0
    && |s| >= start + places + 2
    && s[|s| - places - 1] == '.'
    && AllDigits(s[start..|s| - places - 1])
    && AllDigits(s[|s| - places..])
  }

  /** The value a `%.<places>f` numeral denotes, in units of its last
      place (10^-places). */
  function FixedUnits(s: string, places: nat): int
    requires IsFixedNumeral(s, places)
  {
    var start := if s[0] == '-' then 1 else 0;
    var units := DigitsValue(s[start..|s| - places - 1]) * Pow10(places) + DigitsValue(s[|s| - places..]);
    if start == 1 then -units else units
  }

  lemma Times10(w: nat, p: nat)
    ensures w * Pow10(p + 1) == 10 * (w * Pow10(p))
  {
  }

  /** The integer and fraction digits of a numeral with `places` places,
      read back as one number of units. */
  predicate SplitsAs(s: string, places: nat, n: nat) {
    && |s| >= places + 2
    && s[|s| - places - 1] == '.'
    && AllDigits(s[..|s| - places - 1])
    && AllDigits(s[|s| - places..])
    && DigitsValue(s[..|s| - places - 1]) * Pow10(places) + DigitsValue(s[|s| - places..]) == n
  }

  lemma LastDigitValue(n: nat)
    ensures DigitsValue([DigitChar(n % 10)]) == n % 10
  {
    assert [DigitChar(n % 10)][..0] == [];
  }

  lemma NumeralOnePlace(n: nat)
    ensures SplitsAs(Numeral(n, 1), 1, n)
  {
    var s := Numeral(n, 1);
    var w, d := Decimal(n / 10), [DigitChar(n % 10)];
    DecimalRoundTrip(n / 10);
    LastDigitValue(n);
    assert s == w + "." + d;
    assert s[..|s| - 2] == w;
    assert s[|s| - 1..] == d;
  }

  /** Appending a digit to the fraction keeps the split. */
  lemma AppendFractionDigit(t: string, places: nat, m: nat, digit: nat)
    requires places > 0 && digit < 10 && SplitsAs(t, places, m)
    ensures SplitsAs(t + [DigitChar(digit)], places + 1, 10 * m + digit)
  {
    var d := [DigitChar(digit)];
    var s := t + d;
    var whole := t[..|t| - places - 1];
    var frac := t[|t| - places..];
    assert s[..|s| - places - 2] == whole;
    assert s[|s| - places - 1..] == frac + d;
    assert (frac + d)[..|frac + d| - 1] == frac;
    assert DigitsValue(frac + d) == 10 * DigitsValue(frac) + digit;
    Times10(DigitsValue(whole), places);
  }

  /** The unsigned numeral of `n` splits at its point into integer and
      fraction digits that read back as `n` units. */
  lemma {:induction false} NumeralParts(n: nat, places: nat)
    requires places > 0
    ensures SplitsAs(Numeral(n, places), places, n)
  {
    if places == 1 {
      NumeralOnePlace(n);
    } else {
      NumeralParts(n / 10, places - 1);
      AppendFractionDigit(Numeral(n / 10, places - 1), places - 1, n / 10, n % 10);
    }
  }

  /** The unsigned numeral of `n` is well formed and reads back as `n`. */
  lemma NumeralReadsBack(n: nat, places: nat)
    requires places > 0
    ensures IsFixedNumeral(Numeral(n, places), places)
    ensures FixedUnits(Numeral(n, places), places) == n
  {
    NumeralParts(n, places);
    var s := Numeral(n, places);
    assert SplitsAs(s, places, n);
    assert s[0] != '-';
    assert s[0..|s| - places - 1] == s[..|s| - places - 1];
  }

  /** Reading a `%.<places>f` numeral back gives `x`'s sign and the
      magnitude `Scaled`, which `Scaled`'s contract and `ShiftScales` put
      within half a unit of `|x| * 10^places`. */
  lemma FixedReadsBack(x: real, places: nat)
    requires places > 0
    ensures IsFixedNumeral(Fixed(x, places), places)
    ensures FixedUnits(Fixed(x, places), places)
            == if x < 0.0 then -(Scaled(x, places) as int) else Scaled(x, places)
  {
    var n := Scaled(x, places);
    var m := Numeral(n, places);
    NumeralReadsBack(n, places);
    var s := Fixed(x, places);
    if x < 0.0 {
      assert s == "-" + m;
      assert s[1..|s| - places - 1] == m[..|m| - places - 1];
      assert s[|s| - places..] == m[|m| - places..];
      assert m[0..|m| - places - 1] == m[..|m| - places - 1];
    } else {
      assert s == m;
    }
  }

  /** `places` zero digits. */
  function Zeros(places: nat): (s: string)
    ensures |s| == places && forall i :: 0 <= i < |s| ==> s[i] == '0'
  {
    if places == 0 then "" else Zeros(places - 1) + "0"
  }

  lemma {:induction false} NumeralOfWhole(k: nat, places: nat)
    requires places > 0
    ensures Numeral(k * Pow10(places), places) == Decimal(k) + "." + Zeros(places)
  {
    Times10(k, places - 1);
    var w := k * Pow10(places - 1);
    assert (10 * w) / 10 == w && (10 * w) % 10 == 0;
    if places > 1 {
      NumeralOfWhole(k, places - 1);
    }
  }

  /** A whole number prints as its `%u` digits, a point and `places`
      zeros. */
  lemma FixedWhole(k: nat, places: nat)
    requires places > 0
    ensures Fixed(k as real, places) == Decimal(k) + "." + Zeros(places)
  {
    ShiftScales(k as real, places);
    assert Shift(k as real, places) == (k * Pow10(places)) as real;
    assert Scaled(k as real, places) == k * Pow10(places);
    NumeralOfWhole(k, places);
  }

  // ----- colours -----

  /** The `0.003921569*r` of the colour channels (roughly 1/255). */
  function ColourScale(v: real): real {
    0.003921569 * v
  }

  /** Full intensity prints as `1.000` and none as `0.000`. */
  lemma ColourExtremes()
    ensures Fixed(ColourScale(255.0), 3) == "1.000"
    ensures Fixed(ColourScale(0.0), 3) == "0.000"
  {
    assert Shift(ColourScale(255.0), 3) == 1000.000095 by {
      assert Shift(ColourScale(255.0), 1) == 10.00000095;
      assert Shift(ColourScale(255.0), 2) == 100.0000095;
    }
    assert Shift(0.0, 3) == 0.0 by {
      assert Shift(0.0, 1) == 0.0 && Shift(0.0, 2) == 0.0;
    }
    assert Scaled(ColourScale(255.0), 3) == 1000;
    assert Scaled(ColourScale(0.0), 3) == 0;
    assert Decimal(1) == "1" && Decimal(0) == "0";
    assert Numeral(1000, 3) == "1.000" by {
      assert Numeral(10, 1) == "1.0";
      assert Numeral(100, 2) == "1.00";
    }
    assert Numeral(0, 3) == "0.000" by {
      assert Numeral(0, 1) == "0.0";
      assert Numeral(0, 2) == "0.00";
    }
  }
}
