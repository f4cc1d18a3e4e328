/**
 * Python's fixed-point rendering of a float, `f"{x:.6f}"`, on exact reals,
 * and what `float()` reads back from it.
 */
module Format {
  import opened Base
  import opened Numeric
  import opened Text

  /** The last `k` decimal digits of `n`, zero-padded: `f"{n:0{k}d}"` for `n < 10^k`. */
  function PadDigits(n: nat, k: nat): (s: string)
    ensures |s| == k && AllDigits(s)
  {
    if k == 0 then [] else PadDigits(n / 10, k - 1) + [DigitChar(n % 10)]
  }

  /** Six digits after a decimal point are their value in millionths. */
  lemma Fraction6(r: nat)
    requires r < 1000000
    ensures Fraction(PadDigits(r, 6)) == r as real / 1000000.0
  {
    var q1 := r / 10;
    var q2 := q1 / 10;
    var q3 := q2 / 10;
    var q4 := q3 / 10;
    var q5 := q4 / 10;
    var e := [q5 % 10, q4 % 10, q3 % 10, q2 % 10, q1 % 10, r % 10];
    assert PadDigits(q5, 1) == [DigitChar(e[0])];
    assert PadDigits(q4, 2) == [DigitChar(e[0]), DigitChar(e[1])];
    assert PadDigits(q3, 3) == [DigitChar(e[0]), DigitChar(e[1]), DigitChar(e[2])];
    assert PadDigits(q2, 4) == [DigitChar(e[0]), DigitChar(e[1]), DigitChar(e[2]), DigitChar(e[3])];
    assert PadDigits(q1, 5) == [DigitChar(e[0]), DigitChar(e[1]), DigitChar(e[2]), DigitChar(e[3]), DigitChar(e[4])];
    assert PadDigits(r, 6) == [DigitChar(e[0]), DigitChar(e[1]), DigitChar(e[2]), DigitChar(e[3]), DigitChar(e[4]), DigitChar(e[5])];
    assert r == 10 * q1 + e[5] && q1 == 10 * q2 + e[4] && q2 == 10 * q3 + e[3];
    assert q3 == 10 * q4 + e[2] && q4 == 10 * q5 + e[1] && q5 == e[0];
    assert r == 100000 * e[0] + 10000 * e[1] + 1000 * e[2] + 100 * e[3] + 10 * e[4] + e[5];
    SixDigits(e[0], e[1], e[2], e[3], e[4], e[5]);
  }

  /** The fraction written by six given digits. */
  lemma SixDigits(a: nat, b: nat, c: nat, d: nat, e: nat, f: nat)
    requires a < 10 && b < 10 && c < 10 && d < 10 && e < 10 && f < 10
    ensures Fraction([DigitChar(a), DigitChar(b), DigitChar(c), DigitChar(d), DigitChar(e), DigitChar(f)])
         == (100000 * a + 10000 * b + 1000 * c + 100 * d + 10 * e + f) as real / 1000000.0
  {
    var s := [DigitChar(a), DigitChar(b), DigitChar(c), DigitChar(d), DigitChar(e), DigitChar(f)];
    assert Fraction(s[5..]) == f as real / 10.0;
    assert Fraction(s[4..]) == (e as real + Fraction(s[5..])) / 10.0;
    assert Fraction(s[3..]) == (d as real + Fraction(s[4..])) / 10.0;
    assert Fraction(s[2..]) == (c as real + Fraction(s[3..])) / 10.0;
    assert Fraction(s[1..]) == (b as real + Fraction(s[2..])) / 10.0;
    assert Fraction(s) == (a as real + Fraction(s[1..])) / 10.0;
  }

  /**
   * `f"{x:.6f}"`: the sign, the whole part and exactly six digits after the
   * point, the value rounded half to even at the sixth decimal.
   */
  function Fixed6(x: real): (s: string)
    ensures |s| >= 8 && s[|s| - 7] == '.' && AllDigits(s[|s| - 6..])
    ensures s[0] == '-' <==> x < 0.0
    ensures var w := if x < 0.0 then 1 else 0; w < |s| - 7 && AllDigits(s[w..|s| - 7])
  {
    var n := Millionths(if x < 0.0 then -x else x);
    (if x < 0.0 then "-" else "") + ShowNat(n / 1000000) + "." + PadDigits(n % 1000000, 6)
  }

  /** `x >= 0` in millionths, rounded half to even. */
  function Millionths(x: real): nat
    requires x >= 0.0
  {
    RoundHalfEven(x * 1000000.0)
  }

  /** `x` rounded half to even to six decimals. */
  function Round6(x: real): real
  {
    RoundHalfEven(x * 1000000.0) as real / 1000000.0
  }

  /** `float(f"{x:.6f}")` is `x` rounded to six decimals, for `x >= 0`. */
  lemma Fixed6Read(x: real)
    requires x >= 0.0
    ensures PyFloat(Fixed6(x)) == Some(Round6(x))
  {
    var n := Millionths(x);
    var q := n / 1000000;
    var r := n % 1000000;
    var ip := ShowNat(q);
    var fp := PadDigits(r, 6);
    assert Fixed6(x) == ip + "." + fp;
    PyFloatDecimal(ip, fp);
    DigitsValueShowNat(q);
    Fraction6(r);
    MillionthsSplit(n);
    assert Round6(x) == n as real / 1000000.0;
  }

  /** A count of millionths is its whole part plus its fraction. */
  lemma MillionthsSplit(n: nat)
    ensures n as real / 1000000.0 == (n / 1000000) as real + (n % 1000000) as real / 1000000.0
  {
    assert n == (n / 1000000) * 1000000 + n % 1000000;
  }

  /** Decimal text has no whitespace in it. */
  lemma Fixed6NoSpace(x: real)
    ensures NoSpace(Fixed6(x))
  {
    var n := Millionths(if x < 0.0 then -x else x);
    DigitsNoSpace(ShowNat(n / 1000000));
    DigitsNoSpace(PadDigits(n % 1000000, 6));
  }
}
