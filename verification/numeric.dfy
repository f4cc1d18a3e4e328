/**
 * Python's numeric conversions, written out exactly on unbounded integers
 * and exact reals: `int(x)` on a float truncates toward zero, `round(x)`
 * rounds half to even, and slicing clamps (and wraps negative) indices.
 */
module Numeric {
  import opened Base

  /** Python `int(x)` for a float `x`: truncation toward zero. */
  function Trunc(x: real): (r: int)
    ensures 0.0 <= x ==> r as real <= x < r as real + 1.0
    ensures x < 0.0 ==> r as real - 1.0 < x <= r as real
    ensures 0.0 <= x ==> 0 <= r
    ensures x <= 0.0 ==> r <= 0
  {
    if 0.0 <= x then x.Floor else -((-x).Floor)
  }

  /** The share `o / a` of a positive whole: non-negative, at most one when `o <= a`. */
  lemma ShareBound(o: real, a: real)
    requires 0.0 <= o && 0.0 < a
    ensures o / a >= 0.0
    ensures o <= a ==> o / a <= 1.0
    ensures o == a ==> o / a == 1.0
  {
    var q := o / a;
    assert q * a == o;
    if q > 1.0 {
      assert q * a > 1.0 * a;
    }
  }

  /** `int(float(n))` is `n` again. */
  lemma TruncWhole(n: int)
    ensures Trunc(n as real) == n
  {
  }

  /** A normalised coordinate in pixels: a fraction of a length lies between 0 and the length. */
  function Scale(c: real, n: nat): (r: real)
    ensures 0.0 <= c <= 1.0 ==> 0.0 <= r <= n as real
  {
    assert 0.0 <= c <= 1.0 ==> n as real - c * n as real == (1.0 - c) * n as real;
    c * n as real
  }

  /** Python list indexing `s[i]`: negative indices count from the end; `None` where it raises `IndexError`. */
  function PyAt<T>(s: seq<T>, i: int): (r: Option<T>)
    ensures r.Some? <==> -|s| <= i < |s|
    ensures 0 <= i < |s| ==> r == Some(s[i])
  {
    if 0 <= i < |s| then Some(s[i])
    else if -|s| <= i < 0 then Some(s[|s| + i])
    else None
  }

  /** `round(float(n))` is `n`. */
  lemma RoundWhole(n: int)
    ensures RoundHalfEven(n as real) == n
  {
  }

  /** Python `round(x)`: the nearest integer, ties to the even one. */
  function RoundHalfEven(x: real): (r: int)
    ensures x - 0.5 <= r as real <= x + 0.5
    ensures r as real - x == 0.5 || x - r as real == 0.5 ==> r % 2 == 0
  {
    var f := x.Floor;
    var d := x - f as real;
    if d < 0.5 then f
    else if d > 0.5 then f + 1
    else if f % 2 == 0 then f
    else f + 1
  }

  function Min(a: int, b: int): int { if a <= b then a else b }
  function Max(a: int, b: int): int { if a <= b then b else a }

  /**
   * Where a Python slice bound `i` lands in a sequence of length `n`:
   * a negative bound counts from the end, and the result is clamped to 0..n.
   */
  function SliceBound(i: int, n: nat): (r: nat)
    ensures r <= n
    ensures 0 <= i <= n ==> r == i
    ensures i > n ==> r == n
    ensures -(n as int) <= i < 0 ==> r == n + i
    ensures i < -(n as int) ==> r == 0
  {
    if i < 0 then (if i + n < 0 then 0 else i + n) else if i > n then n else i
  }

  /** Python `s[a:b]`. */
  function PySlice<T>(s: seq<T>, a: int, b: int): (r: seq<T>)
    ensures |r| <= |s|
    ensures 0 <= a <= b <= |s| ==> r == s[a..b]
    ensures SliceBound(b, |s|) <= SliceBound(a, |s|) ==> r == []
  {
    var lo := SliceBound(a, |s|);
    var hi := SliceBound(b, |s|);
    if hi <= lo then [] else s[lo..hi]
  }

  /** Length of the Python slice `s[a:b]` of a sequence of length `n`. */
  function SliceLength(n: nat, a: int, b: int): (r: nat)
    ensures r <= n
    ensures 0 <= a <= b <= n ==> r == b - a
  {
    var lo := SliceBound(a, n);
    var hi := SliceBound(b, n);
    if hi <= lo then 0 else hi - lo
  }

  lemma SliceLengthIsLength<T>(s: seq<T>, a: int, b: int)
    ensures |PySlice(s, a, b)| == SliceLength(|s|, a, b)
  {
  }

  /** Python `a // b` with a positive divisor is floor division, which is Dafny's `/`. */
  function FloorDiv(a: int, b: int): (r: int)
    requires b > 0
    ensures r * b <= a < r * b + b
  {
    a / b
  }
}
