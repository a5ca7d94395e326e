/** Small facts about real multiplication and `Floor` that the solver needs spelled out. */
module RealArith {

  lemma MulMono(p: real, r: real, c: real)
    requires p <= r && c >= 0.0
    ensures p * c <= r * c
  {
  }

  lemma MulMonoStrict(p: real, r: real, c: real)
    requires p < r && c > 0.0
    ensures p * c < r * c
  {
  }

  lemma FloorMono(p: real, r: real)
    requires p <= r
    ensures p.Floor <= r.Floor
  {
  }

  /** For `c` in [0, 1] and `b >= 0`, `floor(c * b)` lies in 0 .. floor(b). */
  lemma ScaledFloorUp(c: real, b: real)
    requires 0.0 <= c <= 1.0 && b >= 0.0
    ensures 0 <= (c * b).Floor <= b.Floor
  {
    MulMono(c, 1.0, b);
    MulMono(0.0, c, b);
    FloorMono(c * b, b);
  }

  /**
   * `floor(c * b)` for `c` in [0, 1]: the cell that `c` falls in on a
   * grid of `b` steps, between 0 and `floor(b)`.
   */
  function ScaledFloor(c: real, b: real): (q: int)
    requires 0.0 <= c <= 1.0
    ensures b >= 0.0 ==> 0 <= q <= b.Floor
  {
    if b >= 0.0 then
      ScaledFloorUp(c, b);
      (c * b).Floor
    else
      (c * b).Floor
  }

  /** `floor(c * b)` is monotone in `c` for `b >= 0`. */
  lemma ScaledFloorMono(p: real, r: real, b: real)
    requires 0.0 <= p <= r <= 1.0 && b >= 0.0
    ensures ScaledFloor(p, b) <= ScaledFloor(r, b)
  {
    MulMono(p, r, b);
    FloorMono(p * b, r * b);
  }

  /** `q * d^2 <= d^2` with `d > 0` gives `q <= 1`. */
  lemma RatioAtMostOne(q: real, d: real)
    requires d > 0.0 && q * (d * d) <= d * d
    ensures q <= 1.0
  {
  }

  /** `q * d^2 == d^2` with `d > 0` gives `q == 1`. */
  lemma RatioIsOne(q: real, d: real)
    requires d > 0.0 && q * (d * d) == d * d
    ensures q == 1.0
  {
  }

  /** `lo * n <= s <= hi * n` with `n > 0` puts `s / n` between `lo` and `hi`. */
  lemma QuotientBetween(s: real, n: real, lo: real, hi: real)
    requires n > 0.0 && lo * n <= s <= hi * n
    ensures lo <= s / n <= hi
  {
  }

  /** `s < B * n` with `n > 0` gives `s / n < B`. */
  lemma QuotientBelow(s: real, n: real, B: real)
    requires n > 0.0 && s < B * n
    ensures s / n < B
  {
  }

  /** One more term between `lo` and `hi` keeps a sum of `n` such terms between `n * lo` and `n * hi`. */
  lemma StepBetween(lo: real, hi: real, s: real, x: real, n: real, m: real)
    requires m == n + 1.0 && lo * n <= s <= hi * n && lo <= x <= hi
    ensures lo * m <= s + x <= hi * m
  {
    Distribute(lo, n);
    Distribute(hi, n);
  }

  lemma Distribute(B: real, k: real)
    ensures B * (k + 1.0) == B * k + B
  {
  }

  /** Truncating `x * B` to an integer and dividing by `B` loses less than `1 / B`. */
  lemma FloorDivGap(x: real, B: real)
    requires B > 0.0
    ensures 0.0 <= x - ((x * B).Floor as real) / B < 1.0 / B
  {
  }

  /** `q / B` lies in [0, 1] exactly when `q` lies in [0, B]. */
  lemma DivUnitRange(q: real, B: real)
    requires B > 0.0
    ensures 0.0 <= q <= B <==> 0.0 <= q / B <= 1.0
  {
  }

  lemma DivExact(s: real, n: real, q: real)
    requires n != 0.0 && s == q * n
    ensures s / n == q
  {
  }

  lemma DivMulCancel(s: real, n: real)
    requires n != 0.0
    ensures (s / n) * n == s
  {
  }

  /** Multiplying `q / B` back by `B` and truncating recovers the integer `q`. */
  lemma DivMulFloor(q: int, B: real)
    requires B > 0.0
    ensures ((q as real / B) * B).Floor == q
  {
  }

  /** An error below `1 / B` in the unit scale is an error below `w / B` after scaling by `w`. */
  lemma AffineError(c: real, x: real, g: real, lo: real, w: real, B: real)
    requires w > 0.0 && B > 0.0 && c == x * w + lo && 0.0 <= x - g < 1.0 / B
    ensures 0.0 <= c - (g * w + lo) < w / B
  {
  }

  lemma SquareBelow(d: real, B: real)
    requires -B < d < B
    ensures d * d < B * B
  {
  }

  /** The square of a real, as a function so that callers can pass it around whole. */
  function Sq(r: real): (s: real)
    ensures s >= 0.0
  {
    r * r
  }

  /**
   * A value strictly inside `(-B, B)` has a smaller square than `B`.  The
   * product form is proved on its own, away from the definition of `Sq`.
   */
  lemma SqBelow(d: real, B: real)
    requires -B < d < B
    ensures Sq(d) < Sq(B)
  {
    SquareBelow(d, B);
  }

  lemma SqZeroIff(r: real)
    ensures Sq(r) == 0.0 <==> r == 0.0
  {
    if r != 0.0 {
      SqBelow(0.0, if r < 0.0 then -r else r);
    }
  }

  lemma DivNonNegative(s: real, n: real)
    requires s >= 0.0 && n > 0.0
    ensures s / n >= 0.0
  {
  }

  lemma DivZeroIff(s: real, n: real)
    requires n > 0.0
    ensures s / n == 0.0 <==> s == 0.0
  {
  }

  /**
   * An error below `1 / B` in [0, 1] is, after `* 2 - 1` and scaling by
   * `d`, an error below `2 * d / B`.
   */
  lemma UnshiftError(v: real, s: real, g: real, c: real, d: real, B: real)
    requires d > 0.0 && B > 0.0 && v - c == (s * 2.0 - 1.0) * d && 0.0 <= s - g < 1.0 / B
    ensures 0.0 <= v - ((g * 2.0 - 1.0) * d + c) < 2.0 * d / B
  {
  }
}
