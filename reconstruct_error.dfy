/**
 * Reconstruction and error measurement (src/task3_reconstruct_error.py):
 * dequantisation of the integer grid back to [0, 1], the two inverse
 * normalisations, and the per-axis mean squared and mean absolute error
 * between original and reconstructed vertices.
 */
module ReconstructError {
  import opened Vectors
  import opened RealArith
  import opened NormalizeQuantize

  // ---------------------------------------------------------------------
  // Dequantisation (`q / (bins - 1)`, lines 42 and 51)
  // ---------------------------------------------------------------------

  /** `q / (bins - 1)` for one coordinate; `bins == 1` divides by zero in the source. */
  function DequantizeCoord(q: int, bins: int): real
    requires bins != 1
  {
    (q as real) / ((bins - 1) as real)
  }

  function DequantizeVertex(c: Cell, bins: int): Vec3
    requires bins != 1
  {
    Vec3(DequantizeCoord(c.x, bins), DequantizeCoord(c.y, bins), DequantizeCoord(c.z, bins))
  }

  /** `q / (bins - 1)` over the whole grid: one point per cell, in order. */
  function Dequantize(cs: seq<Cell>, bins: int): (r: seq<Vec3>)
    requires bins != 1
    ensures |r| == |cs|
    ensures forall i, a: Axis :: 0 <= i < |cs| ==> r[i].At(a) == DequantizeCoord(cs[i].At(a), bins)
  {
    seq(|cs|, i requires 0 <= i < |cs| => DequantizeVertex(cs[i], bins))
  }

  /** For bins >= 2 a grid index lies in 0 .. bins - 1 exactly when its value lies in [0, 1]. */
  lemma DequantizeRange(q: int, bins: int)
    requires bins >= 2
    ensures 0 <= q <= bins - 1 <==> 0.0 <= DequantizeCoord(q, bins) <= 1.0
  {
    DivUnitRange(q as real, (bins - 1) as real);
  }

  /** On a coordinate already in [0, 1], quantisation is `floor(x * (bins - 1))`. */
  lemma QuantizeUnclipped(x: real, bins: int)
    requires 0.0 <= x <= 1.0
    ensures QuantizeCoord(x, bins) == (x * ((bins - 1) as real)).Floor
  {
  }

  /** Quantising a dequantised grid index gives the index back. */
  lemma QuantizeDequantize(q: int, bins: int)
    requires bins >= 2 && 0 <= q <= bins - 1
    ensures QuantizeCoord(DequantizeCoord(q, bins), bins) == q
  {
    DequantizeRange(q, bins);
    QuantizeUnclipped(DequantizeCoord(q, bins), bins);
    DivMulFloor(q, (bins - 1) as real);
  }

  /**
   * Dequantising the quantised coordinate never overshoots and falls short
   * by less than one grid step `1 / (bins - 1)`.
   */
  lemma QuantizationError(x: real, bins: int)
    requires 0.0 <= x <= 1.0 && bins >= 2
    ensures 0.0 <= x - DequantizeCoord(QuantizeCoord(x, bins), bins) < 1.0 / ((bins - 1) as real)
  {
    QuantizeUnclipped(x, bins);
    FloorDivGap(x, (bins - 1) as real);
  }

  /**
   * Raising the resolution does not always lower the error: 1/15 lies on
   * the 16-level grid but not on the 1024-level one.
   */
  lemma FinerGridCanBeWorse()
    ensures 1.0 / 15.0 - DequantizeCoord(QuantizeCoord(1.0 / 15.0, 16), 16) == 0.0
    ensures 1.0 / 15.0 - DequantizeCoord(QuantizeCoord(1.0 / 15.0, 1024), 1024) > 0.0
  {
    QuantizeUnclipped(1.0 / 15.0, 16);
    assert (1.0 / 15.0 * 15.0).Floor == 1;
    QuantizeUnclipped(1.0 / 15.0, 1024);
    assert (1.0 / 15.0 * 1023.0).Floor == 68;
  }

  // ---------------------------------------------------------------------
  // Min-max denormalisation (lines 11-13)
  // ---------------------------------------------------------------------

  /** `deq * (v_max - v_min) + v_min` for one coordinate. */
  function DenormalizeCoord(g: real, lo: real, hi: real): real {
    g * (hi - lo) + lo
  }

  function DenormalizeMinMaxVertex(d: Vec3, m: MinMax): Vec3 {
    Vec3(DenormalizeCoord(d.x, m.vmin.x, m.vmax.x),
         DenormalizeCoord(d.y, m.vmin.y, m.vmax.y),
         DenormalizeCoord(d.z, m.vmin.z, m.vmax.z))
  }

  /** `denormalize_minmax`: each point is mapped back on its own, in order. */
  function DenormalizeMinMax(deq: seq<Vec3>, m: MinMax): (r: seq<Vec3>)
    ensures |r| == |deq|
    ensures forall i :: 0 <= i < |deq| ==> r[i] == DenormalizeMinMaxVertex(deq[i], m)
    ensures forall i, a: Axis :: 0 <= i < |deq| ==>
      r[i].At(a) == DenormalizeCoord(deq[i].At(a), m.vmin.At(a), m.vmax.At(a))
  {
    seq(|deq|, i requires 0 <= i < |deq| => DenormalizeMinMaxVertex(deq[i], m))
  }

  /** Scaling back undoes min-max scaling of one coordinate. */
  lemma DenormalizeScaleCoord(c: real, lo: real, hi: real)
    requires lo < hi
    ensures DenormalizeCoord((c - lo) / (hi - lo), lo, hi) == c
  {
    DivMulCancel(c - lo, hi - lo);
  }

  lemma DenormalizeScaleVertex(v: Vec3, m: MinMax)
    requires HasExtent(m)
    ensures DenormalizeMinMaxVertex(MinMaxScale(v, m), m) == v
  {
    DenormalizeScaleCoord(v.x, m.vmin.x, m.vmax.x);
    DenormalizeScaleCoord(v.y, m.vmin.y, m.vmax.y);
    DenormalizeScaleCoord(v.z, m.vmin.z, m.vmax.z);
  }

  /** `denormalize_minmax(minmax_normalize(v))` is `v` again, exactly. */
  lemma MinMaxRoundTrip(vs: seq<Vec3>)
    requires |vs| > 0 && HasExtent(BoundingBox(vs))
    ensures DenormalizeMinMax(MinMaxNormalize(vs).0, MinMaxNormalize(vs).1) == vs
  {
    var m := BoundingBox(vs);
    var n := MinMaxNormalize(vs).0;
    var r := DenormalizeMinMax(n, m);
    forall i | 0 <= i < |vs| ensures r[i] == vs[i] {
      assert r[i] == DenormalizeMinMaxVertex(MinMaxScale(vs[i], m), m);
      DenormalizeScaleVertex(vs[i], m);
    }
  }

  // ---------------------------------------------------------------------
  // Unit-sphere denormalisation (lines 15-18)
  // ---------------------------------------------------------------------

  /** `deq_shifted * 2 - 1` for one vertex: the inverse of the shift into [0, 1]. */
  function Unshift(s: Vec3): Vec3 {
    Vec3(s.x * 2.0 - 1.0, s.y * 2.0 - 1.0, s.z * 2.0 - 1.0)
  }

  /** `deq * max_dist + center` for one coordinate. */
  function Unshrink(n: real, c: real, d: real): real {
    n * d + c
  }

  function DenormalizeUnitSphereVertex(s: Vec3, m: Sphere): Vec3 {
    var n := Unshift(s);
    Vec3(Unshrink(n.x, m.center.x, m.maxDist),
         Unshrink(n.y, m.center.y, m.maxDist),
         Unshrink(n.z, m.center.z, m.maxDist))
  }

  /** `denormalize_unitsphere`: each point is mapped back on its own, in order. */
  function DenormalizeUnitSphere(deq: seq<Vec3>, m: Sphere): (r: seq<Vec3>)
    ensures |r| == |deq|
    ensures forall i, a: Axis :: 0 <= i < |deq| ==>
      r[i].At(a) == Unshrink(deq[i].At(a) * 2.0 - 1.0, m.center.At(a), m.maxDist)
  {
    seq(|deq|, i requires 0 <= i < |deq| => DenormalizeUnitSphereVertex(deq[i], m))
  }

  /** `*2 - 1` and `(n + 1) / 2` are mutually inverse. */
  lemma ShiftInverse(v: Vec3)
    ensures Unshift(ShiftToUnit(v)) == v
    ensures ShiftToUnit(Unshift(v)) == v
  {
  }

  lemma UnshrinkShrinkCoord(v: real, c: real, d: real)
    requires d != 0.0
    ensures Unshrink(((v - c) / d + 1.0) / 2.0 * 2.0 - 1.0, c, d) == v
  {
    assert ((v - c) / d + 1.0) / 2.0 * 2.0 - 1.0 == (v - c) / d;
    DivMulCancel(v - c, d);
  }

  /** One vertex: centre, shrink, shift, then unshift and unshrink, is the identity. */
  lemma UnitSphereRoundTripVertex(v: Vec3, m: Sphere)
    requires m.maxDist != 0.0
    ensures DenormalizeUnitSphereVertex(ShiftToUnit(Shrink(Sub(v, m.center), m.maxDist)), m) == v
  {
    UnshrinkShrinkCoord(v.x, m.center.x, m.maxDist);
    UnshrinkShrinkCoord(v.y, m.center.y, m.maxDist);
    UnshrinkShrinkCoord(v.z, m.center.z, m.maxDist);
  }

  /** Denormalising the shifted unit-sphere output gives the original vertices back. */
  lemma UnitSphereRoundTrip(vs: seq<Vec3>, maxDist: real)
    requires |vs| > 0 && IsMaxDist(vs, maxDist) && maxDist > 0.0
    ensures var r := UnitSphereNormalize(vs, maxDist);
      DenormalizeUnitSphere(ShiftAll(r.0), r.1) == vs
  {
    var nm := UnitSphereNormalize(vs, maxDist);
    var s := ShiftAll(nm.0);
    var r := DenormalizeUnitSphere(s, nm.1);
    forall i | 0 <= i < |vs| ensures r[i] == vs[i] {
      assert r[i] == DenormalizeUnitSphereVertex(ShiftToUnit(Shrink(Sub(vs[i], nm.1.center), maxDist)), nm.1);
      UnitSphereRoundTripVertex(vs[i], nm.1);
    }
  }

  // ---------------------------------------------------------------------
  // The two reconstruction pipelines (lines 42-43 and 51-52 without the
  // storage round trip)
  // ---------------------------------------------------------------------

  /** Min-max normalise, quantise, dequantise and denormalise. */
  function MinMaxReconstruct(vs: seq<Vec3>, bins: int): (r: seq<Vec3>)
    requires |vs| > 0 && HasExtent(BoundingBox(vs)) && bins != 1
    ensures |r| == |vs|
  {
    var nm := MinMaxNormalize(vs);
    DenormalizeMinMax(Dequantize(Quantize(nm.0, bins), bins), nm.1)
  }

  /** Unit-sphere normalise, shift, quantise, dequantise and denormalise. */
  function UnitSphereReconstruct(vs: seq<Vec3>, maxDist: real, bins: int): (r: seq<Vec3>)
    requires |vs| > 0 && IsMaxDist(vs, maxDist) && maxDist > 0.0 && bins != 1
    ensures |r| == |vs|
  {
    var nm := UnitSphereNormalize(vs, maxDist);
    DenormalizeUnitSphere(Dequantize(Quantize(ShiftAll(nm.0), bins), bins), nm.1)
  }

  /** Each vertex goes through the min-max pipeline on its own, against the box of the whole set. */
  lemma MinMaxReconstructAt(vs: seq<Vec3>, bins: int, i: int)
    requires |vs| > 0 && HasExtent(BoundingBox(vs)) && bins != 1
    requires 0 <= i < |vs|
    ensures var m := BoundingBox(vs);
      MinMaxReconstruct(vs, bins)[i]
        == DenormalizeMinMaxVertex(DequantizeVertex(QuantizeVertex(MinMaxScale(vs[i], m), bins), bins), m)
  {
  }

  /** Each vertex goes through the unit-sphere pipeline on its own, against the centroid and `max_dist`. */
  lemma UnitSphereReconstructAt(vs: seq<Vec3>, maxDist: real, bins: int, i: int)
    requires |vs| > 0 && IsMaxDist(vs, maxDist) && maxDist > 0.0 && bins != 1
    requires 0 <= i < |vs|
    ensures var m := Sphere(Mean(vs), maxDist);
      var s := ShiftToUnit(Shrink(Sub(vs[i], m.center), maxDist));
      UnitSphereReconstruct(vs, maxDist, bins)[i]
        == DenormalizeUnitSphereVertex(DequantizeVertex(QuantizeVertex(s, bins), bins), m)
  {
  }

  /** One coordinate through the min-max pipeline. */
  lemma MinMaxCoordError(c: real, lo: real, hi: real, bins: int)
    requires lo <= c <= hi && lo < hi && bins >= 2
    ensures var g := DequantizeCoord(QuantizeCoord((c - lo) / (hi - lo), bins), bins);
      0.0 <= c - DenormalizeCoord(g, lo, hi) < (hi - lo) / ((bins - 1) as real)
  {
    var x := (c - lo) / (hi - lo);
    ScaleIntoUnit(c, lo, hi);
    QuantizationError(x, bins);
    DivMulCancel(c - lo, hi - lo);
    var g := DequantizeCoord(QuantizeCoord(x, bins), bins);
    AffineError(c, x, g, lo, hi - lo, (bins - 1) as real);
  }

  /**
   * Min-max reconstruction never overshoots and misses each coordinate by
   * less than one grid step of its axis, `(v_max - v_min) / (bins - 1)`.
   */
  lemma MinMaxReconstructionError(vs: seq<Vec3>, bins: int, i: int, a: Axis)
    requires |vs| > 0 && HasExtent(BoundingBox(vs)) && bins >= 2
    requires 0 <= i < |vs|
    ensures var m := BoundingBox(vs);
      0.0 <= vs[i].At(a) - MinMaxReconstruct(vs, bins)[i].At(a)
          < (m.vmax.At(a) - m.vmin.At(a)) / ((bins - 1) as real)
  {
    var m := BoundingBox(vs);
    BoundingBoxTight(vs, a);
    HasExtentAt(m, a);
    MinMaxScaleAt(vs[i], m, a);
    MinMaxCoordError(vs[i].At(a), m.vmin.At(a), m.vmax.At(a), bins);
  }

  /** One coordinate on an end of its range goes through the min-max pipeline unchanged. */
  lemma MinMaxCoordExactAtEnds(c: real, lo: real, hi: real, bins: int)
    requires lo < hi && (c == lo || c == hi) && bins >= 2
    ensures DenormalizeCoord(DequantizeCoord(QuantizeCoord((c - lo) / (hi - lo), bins), bins), lo, hi) == c
  {
    ScaleIntoUnit(c, lo, hi);
    QuantizeEnds(0.0, bins);
    if c == lo {
      calc {
        DenormalizeCoord(DequantizeCoord(QuantizeCoord((c - lo) / (hi - lo), bins), bins), lo, hi);
      ==
        DenormalizeCoord(DequantizeCoord(0, bins), lo, hi);
      ==
        DenormalizeCoord(0.0, lo, hi);
      ==
        lo;
      }
    } else {
      assert DequantizeCoord(bins - 1, bins) == 1.0;
      calc {
        DenormalizeCoord(DequantizeCoord(QuantizeCoord((c - lo) / (hi - lo), bins), bins), lo, hi);
      ==
        DenormalizeCoord(DequantizeCoord(bins - 1, bins), lo, hi);
      ==
        DenormalizeCoord(1.0, lo, hi);
      ==
        hi;
      }
    }
  }

  /** A coordinate on a face of the bounding box is reconstructed exactly. */
  lemma MinMaxExactOnBoxFaces(vs: seq<Vec3>, bins: int, i: int, a: Axis)
    requires |vs| > 0 && HasExtent(BoundingBox(vs)) && bins >= 2
    requires 0 <= i < |vs|
    requires vs[i].At(a) == BoundingBox(vs).vmin.At(a) || vs[i].At(a) == BoundingBox(vs).vmax.At(a)
    ensures MinMaxReconstruct(vs, bins)[i].At(a) == vs[i].At(a)
  {
    var m := BoundingBox(vs);
    HasExtentAt(m, a);
    MinMaxScaleAt(vs[i], m, a);
    MinMaxCoordExactAtEnds(vs[i].At(a), m.vmin.At(a), m.vmax.At(a), bins);
  }

  /** One coordinate through the unit-sphere pipeline. */
  lemma SphereCoordError(v: real, c: real, d: real, bins: int)
    requires d > 0.0 && -1.0 <= (v - c) / d <= 1.0 && bins >= 2
    ensures var g := DequantizeCoord(QuantizeCoord(((v - c) / d + 1.0) / 2.0, bins), bins);
      0.0 <= v - Unshrink(g * 2.0 - 1.0, c, d) < 2.0 * d / ((bins - 1) as real)
  {
    var s := ((v - c) / d + 1.0) / 2.0;
    QuantizationError(s, bins);
    var g := DequantizeCoord(QuantizeCoord(s, bins), bins);
    DivMulCancel(v - c, d);
    UnshiftError(v, s, g, c, d, (bins - 1) as real);
  }

  /**
   * Unit-sphere reconstruction never overshoots and misses each coordinate
   * by less than `2 * max_dist / (bins - 1)`: one grid step of the shifted
   * cube, stretched by the shift and by `max_dist`.
   */
  lemma UnitSphereReconstructionError(vs: seq<Vec3>, maxDist: real, bins: int, i: int, a: Axis)
    requires |vs| > 0 && IsMaxDist(vs, maxDist) && maxDist > 0.0 && bins >= 2
    requires 0 <= i < |vs|
    ensures 0.0 <= vs[i].At(a) - UnitSphereReconstruct(vs, maxDist, bins)[i].At(a)
                < 2.0 * maxDist / ((bins - 1) as real)
  {
    var c := Mean(vs);
    var n := UnitSphereNormalize(vs, maxDist).0;
    UnitSphereInBall(vs, maxDist);
    assert n[i].At(a) == (vs[i].At(a) - c.At(a)) / maxDist;
    UnitSphereReconstructCoord(vs, maxDist, bins, i, a);
    SphereCoordError(vs[i].At(a), c.At(a), maxDist, bins);
  }

  /** One coordinate of one vertex through the unit-sphere pipeline. */
  lemma UnitSphereReconstructCoord(vs: seq<Vec3>, maxDist: real, bins: int, i: int, a: Axis)
    requires |vs| > 0 && IsMaxDist(vs, maxDist) && maxDist > 0.0 && bins != 1
    requires 0 <= i < |vs|
    ensures var c := Mean(vs).At(a);
      var g := DequantizeCoord(QuantizeCoord(((vs[i].At(a) - c) / maxDist + 1.0) / 2.0, bins), bins);
      UnitSphereReconstruct(vs, maxDist, bins)[i].At(a) == Unshrink(g * 2.0 - 1.0, c, maxDist)
  {
    UnitSphereReconstructAt(vs, maxDist, bins, i);
    match a
    case X =>
    case Y =>
    case Z =>
  }

  // ---------------------------------------------------------------------
  // Error analysis (`compute_errors`, lines 20-25)
  // ---------------------------------------------------------------------

  /** Per-axis mean squared error and mean absolute error. */
  datatype Errors = Errors(mse: Vec3, mae: Vec3)

  /** `n = min(len(original), len(reconstructed))`. */
  function Aligned(o: seq<Vec3>, r: seq<Vec3>): (n: nat)
    ensures n <= |o| && n <= |r|
    ensures n == |o| || n == |r|
  {
    if |o| <= |r| then |o| else |r|
  }

  /** `original[:n] - reconstructed[:n]`. */
  function Diff(o: seq<Vec3>, r: seq<Vec3>): (d: seq<Vec3>)
    ensures |d| == Aligned(o, r)
    ensures forall i :: 0 <= i < |d| ==> d[i] == Sub(o[i], r[i])
  {
    seq(Aligned(o, r), i requires 0 <= i < Aligned(o, r) => Sub(o[i], r[i]))
  }

  function Total(xs: seq<real>): real {
    if |xs| == 0 then 0.0 else Total(xs[..|xs| - 1]) + xs[|xs| - 1]
  }

  /** Column `a` of `diff ** 2`. */
  function SquaresOf(d: seq<Vec3>, a: Axis): (r: seq<real>)
    ensures |r| == |d|
    ensures forall i :: 0 <= i < |d| ==> r[i] == Sq(d[i].At(a))
  {
    seq(|d|, i requires 0 <= i < |d| => Sq(d[i].At(a)))
  }

  /** Column `a` of `np.abs(diff)`. */
  function AbsOf(d: seq<Vec3>, a: Axis): (r: seq<real>)
    ensures |r| == |d|
    ensures forall i :: 0 <= i < |d| ==> r[i] == Abs(d[i].At(a))
  {
    seq(|d|, i requires 0 <= i < |d| => Abs(d[i].At(a)))
  }

  /** A sum of non-negative terms is non-negative. */
  lemma {:induction false} TotalNonNegative(xs: seq<real>)
    requires forall i :: 0 <= i < |xs| ==> xs[i] >= 0.0
    ensures Total(xs) >= 0.0
  {
    if |xs| > 0 {
      var k := |xs| - 1;
      assert forall i :: 0 <= i < k ==> xs[..k][i] == xs[i];
      TotalNonNegative(xs[..k]);
    }
  }

  /** A sum of non-negative terms is zero exactly when every term is. */
  lemma {:induction false} TotalZeroIff(xs: seq<real>)
    requires forall i :: 0 <= i < |xs| ==> xs[i] >= 0.0
    ensures Total(xs) == 0.0 <==> forall i :: 0 <= i < |xs| ==> xs[i] == 0.0
  {
    if |xs| > 0 {
      var k := |xs| - 1;
      assert forall i :: 0 <= i < k ==> xs[..k][i] == xs[i];
      TotalNonNegative(xs[..k]);
      TotalZeroIff(xs[..k]);
    }
  }

  /** `k >= 1` terms each below `B` sum to less than `B * k`. */
  lemma {:induction false} TotalBelow(xs: seq<real>, B: real)
    requires |xs| >= 1
    requires forall i :: 0 <= i < |xs| ==> xs[i] < B
    ensures Total(xs) < B * (|xs| as real)
  {
    var k := |xs| - 1;
    if k == 0 {
      assert Total(xs) == xs[0];
    } else {
      assert forall i :: 0 <= i < k ==> xs[..k][i] == xs[i];
      TotalBelow(xs[..k], B);
      Distribute(B, k as real);
    }
  }

  /** `np.mean(diff ** 2, axis=0)[a]`. */
  function AxisMse(o: seq<Vec3>, r: seq<Vec3>, a: Axis): (e: real)
    requires Aligned(o, r) >= 1
    ensures e >= 0.0
  {
    var xs := SquaresOf(Diff(o, r), a);
    TotalNonNegative(xs);
    DivNonNegative(Total(xs), Aligned(o, r) as real);
    Total(xs) / (Aligned(o, r) as real)
  }

  /** `np.mean(np.abs(diff), axis=0)[a]`. */
  function AxisMae(o: seq<Vec3>, r: seq<Vec3>, a: Axis): (e: real)
    requires Aligned(o, r) >= 1
    ensures e >= 0.0
  {
    var xs := AbsOf(Diff(o, r), a);
    TotalNonNegative(xs);
    DivNonNegative(Total(xs), Aligned(o, r) as real);
    Total(xs) / (Aligned(o, r) as real)
  }

  /**
   * `compute_errors`: per-axis MSE and MAE over the first
   * `min(len(original), len(reconstructed))` pairs.  numpy yields NaN on
   * an empty comparison, so at least one pair is required.
   */
  function ComputeErrors(o: seq<Vec3>, r: seq<Vec3>): (e: Errors)
    requires Aligned(o, r) >= 1
    ensures forall a: Axis :: e.mse.At(a) >= 0.0 && e.mae.At(a) >= 0.0
    ensures forall a: Axis :: e.mse.At(a) == AxisMse(o, r, a) && e.mae.At(a) == AxisMae(o, r, a)
  {
    Errors(Vec3(AxisMse(o, r, X), AxisMse(o, r, Y), AxisMse(o, r, Z)),
           Vec3(AxisMae(o, r, X), AxisMae(o, r, Y), AxisMae(o, r, Z)))
  }

  lemma DiffAt(o: seq<Vec3>, r: seq<Vec3>, i: int, a: Axis)
    requires 0 <= i < Aligned(o, r)
    ensures Diff(o, r)[i].At(a) == o[i].At(a) - r[i].At(a)
  {
  }

  /**
   * On each axis the MSE is zero, and so is the MAE, exactly when the
   * aligned prefixes agree on that axis.
   */
  lemma ErrorsZeroIff(o: seq<Vec3>, r: seq<Vec3>, a: Axis)
    requires Aligned(o, r) >= 1
    ensures ComputeErrors(o, r).mse.At(a) == 0.0 <==>
      forall i :: 0 <= i < Aligned(o, r) ==> o[i].At(a) == r[i].At(a)
    ensures ComputeErrors(o, r).mae.At(a) == 0.0 <==>
      forall i :: 0 <= i < Aligned(o, r) ==> o[i].At(a) == r[i].At(a)
  {
    var n := Aligned(o, r);
    var d := Diff(o, r);
    var sq, ab := SquaresOf(d, a), AbsOf(d, a);
    TotalZeroIff(sq);
    TotalZeroIff(ab);
    DivZeroIff(Total(sq), n as real);
    DivZeroIff(Total(ab), n as real);
    forall i | 0 <= i < n
      ensures sq[i] == 0.0 <==> o[i].At(a) == r[i].At(a)
      ensures ab[i] == 0.0 <==> o[i].At(a) == r[i].At(a)
    {
      DiffAt(o, r, i, a);
      SqZeroIff(d[i].At(a));
    }
  }

  /** Equal aligned prefixes give the zero vector for both MSE and MAE. */
  lemma ErrorsZeroOnEqualPrefix(o: seq<Vec3>, r: seq<Vec3>)
    requires Aligned(o, r) >= 1
    requires o[..Aligned(o, r)] == r[..Aligned(o, r)]
    ensures ComputeErrors(o, r) == Errors(Origin, Origin)
  {
    var n := Aligned(o, r);
    forall a: Axis ensures ComputeErrors(o, r).mse.At(a) == 0.0 && ComputeErrors(o, r).mae.At(a) == 0.0 {
      forall i | 0 <= i < n ensures o[i].At(a) == r[i].At(a) {
        assert o[..n][i] == r[..n][i];
      }
      ErrorsZeroIff(o, r, a);
    }
    var e := ComputeErrors(o, r);
    assert e.mse.At(X) == 0.0 && e.mse.At(Y) == 0.0 && e.mse.At(Z) == 0.0;
    assert e.mae.At(X) == 0.0 && e.mae.At(Y) == 0.0 && e.mae.At(Z) == 0.0;
  }

  /** The errors on axis `a` depend only on coordinate `a` of the aligned pairs. */
  lemma ErrorsPerAxis(o: seq<Vec3>, r: seq<Vec3>, o': seq<Vec3>, r': seq<Vec3>, a: Axis)
    requires Aligned(o, r) >= 1 && Aligned(o', r') == Aligned(o, r)
    requires forall i :: 0 <= i < Aligned(o, r) ==> o[i].At(a) == o'[i].At(a) && r[i].At(a) == r'[i].At(a)
    ensures ComputeErrors(o, r).mse.At(a) == ComputeErrors(o', r').mse.At(a)
    ensures ComputeErrors(o, r).mae.At(a) == ComputeErrors(o', r').mae.At(a)
  {
    var n := Aligned(o, r);
    forall i | 0 <= i < n ensures Diff(o, r)[i].At(a) == Diff(o', r')[i].At(a) {
      DiffAt(o, r, i, a);
      DiffAt(o', r', i, a);
    }
    assert SquaresOf(Diff(o, r), a) == SquaresOf(Diff(o', r'), a);
    assert AbsOf(Diff(o, r), a) == AbsOf(Diff(o', r'), a);
  }

  /** Vertices beyond the shorter of the two sequences do not affect the errors. */
  lemma ErrorsIgnoreTail(o: seq<Vec3>, r: seq<Vec3>)
    requires Aligned(o, r) >= 1
    ensures var n := Aligned(o, r);
      Aligned(o[..n], r[..n]) == n && ComputeErrors(o, r) == ComputeErrors(o[..n], r[..n])
  {
    var n := Aligned(o, r);
    assert Diff(o, r) == Diff(o[..n], r[..n]);
  }

  lemma TotalPair(p: real, q: real)
    ensures Total([p, q]) == p + q
  {
    assert [p, q][..1] == [p];
    assert [p][..0] == [];
    assert Total([p]) == p;
    assert Total([p, q]) == Total([p]) + q;
  }

  /** A column mean is the value whose `n`-fold is the column sum. */
  lemma AxisErrorsFromTotals(o: seq<Vec3>, r: seq<Vec3>, a: Axis, mse: real, mae: real)
    requires Aligned(o, r) >= 1
    requires Total(SquaresOf(Diff(o, r), a)) == mse * (Aligned(o, r) as real)
    requires Total(AbsOf(Diff(o, r), a)) == mae * (Aligned(o, r) as real)
    ensures AxisMse(o, r, a) == mse && AxisMae(o, r, a) == mae
  {
    DivExact(Total(SquaresOf(Diff(o, r), a)), Aligned(o, r) as real, mse);
    DivExact(Total(AbsOf(Diff(o, r), a)), Aligned(o, r) as real, mae);
  }

  lemma ExampleDiff(o: seq<Vec3>, r: seq<Vec3>)
    requires o == [Vec3(0.0, 0.0, 0.0), Vec3(2.0, 0.0, 0.0)]
    requires r == [Vec3(0.0, 0.0, 0.0), Vec3(2.0, 2.0, 0.0)]
    ensures Aligned(o, r) == 2
    ensures Diff(o, r) == [Vec3(0.0, 0.0, 0.0), Vec3(0.0, -2.0, 0.0)]
  {
  }

  lemma ExampleColumns(d: seq<Vec3>)
    requires d == [Vec3(0.0, 0.0, 0.0), Vec3(0.0, -2.0, 0.0)]
    ensures Total(SquaresOf(d, X)) == 0.0 && Total(SquaresOf(d, Y)) == 4.0 && Total(SquaresOf(d, Z)) == 0.0
    ensures Total(AbsOf(d, X)) == 0.0 && Total(AbsOf(d, Y)) == 2.0 && Total(AbsOf(d, Z)) == 0.0
  {
    assert SquaresOf(d, X) == [0.0, 0.0] && SquaresOf(d, Z) == [0.0, 0.0];
    assert SquaresOf(d, Y) == [0.0, 4.0];
    assert AbsOf(d, X) == [0.0, 0.0] && AbsOf(d, Z) == [0.0, 0.0];
    assert AbsOf(d, Y) == [0.0, 2.0];
    TotalPair(0.0, 0.0);
    TotalPair(0.0, 4.0);
    TotalPair(0.0, 2.0);
  }

  /** The per-axis example: only the Y column differs, by 0 and 2. */
  lemma ErrorsExample(o: seq<Vec3>, r: seq<Vec3>)
    requires o == [Vec3(0.0, 0.0, 0.0), Vec3(2.0, 0.0, 0.0)]
    requires r == [Vec3(0.0, 0.0, 0.0), Vec3(2.0, 2.0, 0.0)]
    ensures Aligned(o, r) >= 1
    ensures ComputeErrors(o, r) == Errors(Vec3(0.0, 2.0, 0.0), Vec3(0.0, 1.0, 0.0))
  {
    ExampleDiff(o, r);
    ExampleColumns(Diff(o, r));
    AxisErrorsFromTotals(o, r, X, 0.0, 0.0);
    AxisErrorsFromTotals(o, r, Y, 2.0, 1.0);
    AxisErrorsFromTotals(o, r, Z, 0.0, 0.0);
  }

  lemma MaeBelow(o: seq<Vec3>, r: seq<Vec3>, a: Axis, B: real)
    requires Aligned(o, r) >= 1
    requires forall i :: 0 <= i < Aligned(o, r) ==> Abs(o[i].At(a) - r[i].At(a)) < B
    ensures AxisMae(o, r, a) < B
  {
    var ab := AbsOf(Diff(o, r), a);
    forall i | 0 <= i < |ab| ensures ab[i] < B {
      DiffAt(o, r, i, a);
    }
    TotalBelow(ab, B);
    QuotientBelow(Total(ab), Aligned(o, r) as real, B);
  }

  lemma MseBelow(o: seq<Vec3>, r: seq<Vec3>, a: Axis, B: real)
    requires Aligned(o, r) >= 1
    requires forall i :: 0 <= i < Aligned(o, r) ==> Abs(o[i].At(a) - r[i].At(a)) < B
    ensures AxisMse(o, r, a) < Sq(B)
  {
    var d := Diff(o, r);
    var sq := SquaresOf(d, a);
    forall i | 0 <= i < |sq| ensures sq[i] < Sq(B) {
      DiffAt(o, r, i, a);
      SqBelow(d[i].At(a), B);
    }
    TotalBelow(sq, Sq(B));
    QuotientBelow(Total(sq), Aligned(o, r) as real, Sq(B));
  }

  /**
   * If every aligned pair differs by less than `B` on axis `a`, the MAE on
   * that axis is below `B` and the MSE below `B * B`.
   */
  lemma ErrorsBelowBound(o: seq<Vec3>, r: seq<Vec3>, a: Axis, B: real)
    requires Aligned(o, r) >= 1
    requires forall i :: 0 <= i < Aligned(o, r) ==> Abs(o[i].At(a) - r[i].At(a)) < B
    ensures ComputeErrors(o, r).mae.At(a) < B
    ensures ComputeErrors(o, r).mse.At(a) < Sq(B)
  {
    MaeBelow(o, r, a, B);
    MseBelow(o, r, a, B);
  }

  /**
   * Min-max end to end: on each axis the MAE against the original is below
   * one grid step `(v_max - v_min) / (bins - 1)` and the MSE below its square.
   */
  lemma MinMaxPipelineErrors(vs: seq<Vec3>, bins: int, a: Axis)
    requires |vs| > 0 && HasExtent(BoundingBox(vs)) && bins >= 2
    ensures var m := BoundingBox(vs);
      var step := (m.vmax.At(a) - m.vmin.At(a)) / ((bins - 1) as real);
      var e := ComputeErrors(vs, MinMaxReconstruct(vs, bins));
      e.mae.At(a) < step && e.mse.At(a) < Sq(step)
  {
    var m := BoundingBox(vs);
    var step := (m.vmax.At(a) - m.vmin.At(a)) / ((bins - 1) as real);
    var rec := MinMaxReconstruct(vs, bins);
    forall i | 0 <= i < |vs| ensures Abs(vs[i].At(a) - rec[i].At(a)) < step {
      MinMaxReconstructionError(vs, bins, i, a);
    }
    ErrorsBelowBound(vs, rec, a, step);
  }

  /** Every reconstructed coordinate is within `2 * max_dist / (bins - 1)` of the original. */
  lemma UnitSphereAbsErrors(vs: seq<Vec3>, maxDist: real, bins: int, a: Axis)
    requires |vs| > 0 && IsMaxDist(vs, maxDist) && maxDist > 0.0 && bins >= 2
    ensures var rec := UnitSphereReconstruct(vs, maxDist, bins);
      forall i :: 0 <= i < |vs| ==> Abs(vs[i].At(a) - rec[i].At(a)) < 2.0 * maxDist / ((bins - 1) as real)
  {
    var rec := UnitSphereReconstruct(vs, maxDist, bins);
    forall i | 0 <= i < |vs| ensures Abs(vs[i].At(a) - rec[i].At(a)) < 2.0 * maxDist / ((bins - 1) as real) {
      UnitSphereReconstructionError(vs, maxDist, bins, i, a);
    }
  }

  /**
   * Unit-sphere end to end: on each axis the MAE is below
   * `2 * max_dist / (bins - 1)` and the MSE below its square.
   */
  lemma UnitSpherePipelineErrors(vs: seq<Vec3>, maxDist: real, bins: int, a: Axis)
    requires |vs| > 0 && IsMaxDist(vs, maxDist) && maxDist > 0.0 && bins >= 2
    ensures var step := 2.0 * maxDist / ((bins - 1) as real);
      var e := ComputeErrors(vs, UnitSphereReconstruct(vs, maxDist, bins));
      e.mae.At(a) < step && e.mse.At(a) < Sq(step)
  {
    var step := 2.0 * maxDist / ((bins - 1) as real);
    var rec := UnitSphereReconstruct(vs, maxDist, bins);
    UnitSphereAbsErrors(vs, maxDist, bins, a);
    ErrorsBelowBound(vs, rec, a, step);
  }
}
