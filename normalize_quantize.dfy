/**
 * Normalisation and quantisation of mesh vertices
 * (src/task2_normalize_quantize.py): min-max normalisation onto the unit
 * cube, unit-sphere normalisation into the unit ball, the shift of the
 * unit-sphere output from [-1, 1] to [0, 1], and quantisation of [0, 1]
 * coordinates onto the integer grid 0 .. bins - 1.
 */
module NormalizeQuantize {
  import opened Vectors
  import opened RealArith

  /** Min-max metadata: per-axis minimum and maximum of the vertices. */
  datatype MinMax = MinMax(vmin: Vec3, vmax: Vec3)

  /** Unit-sphere metadata: the centroid and the largest distance from it. */
  datatype Sphere = Sphere(center: Vec3, maxDist: real)

  // ---------------------------------------------------------------------
  // Column reductions (numpy `min`, `max`, `mean` along axis 0)
  // ---------------------------------------------------------------------

  /** `v.min(axis=0)` for one column: the least coordinate, which some vertex has. */
  function AxisMin(vs: seq<Vec3>, a: Axis): (m: real)
    requires |vs| > 0
    ensures forall i :: 0 <= i < |vs| ==> m <= vs[i].At(a)
    ensures exists i :: 0 <= i < |vs| && vs[i].At(a) == m
  {
    if |vs| == 1 then vs[0].At(a)
    else
      var rest := AxisMin(vs[1..], a);
      assert forall i :: 1 <= i < |vs| ==> vs[1..][i - 1] == vs[i];
      if vs[0].At(a) <= rest then vs[0].At(a) else rest
  }

  /** `v.max(axis=0)` for one column: the greatest coordinate, which some vertex has. */
  function AxisMax(vs: seq<Vec3>, a: Axis): (m: real)
    requires |vs| > 0
    ensures forall i :: 0 <= i < |vs| ==> vs[i].At(a) <= m
    ensures exists i :: 0 <= i < |vs| && vs[i].At(a) == m
  {
    if |vs| == 1 then vs[0].At(a)
    else
      var rest := AxisMax(vs[1..], a);
      assert forall i :: 1 <= i < |vs| ==> vs[1..][i - 1] == vs[i];
      if vs[0].At(a) >= rest then vs[0].At(a) else rest
  }

  /** The sum of one column. */
  function AxisSum(vs: seq<Vec3>, a: Axis): real {
    if |vs| == 0 then 0.0 else AxisSum(vs[..|vs| - 1], a) + vs[|vs| - 1].At(a)
  }

  /** `v.mean(axis=0)` for one column. */
  function AxisMean(vs: seq<Vec3>, a: Axis): real
    requires |vs| > 0
  {
    AxisSum(vs, a) / (|vs| as real)
  }

  /** The centroid `v.mean(axis=0)`. */
  function Mean(vs: seq<Vec3>): (c: Vec3)
    requires |vs| > 0
    ensures forall a: Axis :: c.At(a) * (|vs| as real) == AxisSum(vs, a)
  {
    Vec3(AxisMean(vs, X), AxisMean(vs, Y), AxisMean(vs, Z))
  }

  /** `v - center`, row by row. */
  function Centered(vs: seq<Vec3>, c: Vec3): (r: seq<Vec3>)
    ensures |r| == |vs|
    ensures forall i :: 0 <= i < |vs| ==> r[i] == Sub(vs[i], c)
  {
    seq(|vs|, i requires 0 <= i < |vs| => Sub(vs[i], c))
  }

  /** The largest squared distance from `c` to a vertex, which some vertex has. */
  function MaxSqDist(vs: seq<Vec3>, c: Vec3): (d: real)
    requires |vs| > 0
    ensures forall i :: 0 <= i < |vs| ==> SqNorm(Sub(vs[i], c)) <= d
    ensures exists i :: 0 <= i < |vs| && SqNorm(Sub(vs[i], c)) == d
  {
    var here := SqNorm(Sub(vs[0], c));
    if |vs| == 1 then here
    else
      var rest := MaxSqDist(vs[1..], c);
      assert forall i :: 1 <= i < |vs| ==> vs[1..][i - 1] == vs[i];
      if here >= rest then here else rest
  }

  /**
   * `d` is `np.linalg.norm(v - center, axis=1).max()`: the non-negative
   * real whose square is the largest squared distance from the centroid.
   * The square root itself is left to the caller.
   */
  ghost predicate IsMaxDist(vs: seq<Vec3>, d: real)
    requires |vs| > 0
  {
    d >= 0.0 && d * d == MaxSqDist(vs, Mean(vs))
  }

  // ---------------------------------------------------------------------
  // Min-max normalisation (lines 10-16)
  // ---------------------------------------------------------------------

  /** `(v.min(axis=0), v.max(axis=0))`: the bounding box of the vertex set. */
  function BoundingBox(vs: seq<Vec3>): MinMax
    requires |vs| > 0
  {
    MinMax(Vec3(AxisMin(vs, X), AxisMin(vs, Y), AxisMin(vs, Z)),
           Vec3(AxisMax(vs, X), AxisMax(vs, Y), AxisMax(vs, Z)))
  }

  lemma BoundingBoxAt(vs: seq<Vec3>, a: Axis)
    requires |vs| > 0
    ensures BoundingBox(vs).vmin.At(a) == AxisMin(vs, a)
    ensures BoundingBox(vs).vmax.At(a) == AxisMax(vs, a)
  {
    match a
    case X =>
    case Y =>
    case Z =>
  }

  /** Every vertex lies in the box, and each bound is some vertex's coordinate. */
  lemma BoundingBoxTight(vs: seq<Vec3>, a: Axis)
    requires |vs| > 0
    ensures forall i :: 0 <= i < |vs| ==>
      BoundingBox(vs).vmin.At(a) <= vs[i].At(a) <= BoundingBox(vs).vmax.At(a)
    ensures exists i :: 0 <= i < |vs| && vs[i].At(a) == BoundingBox(vs).vmin.At(a)
    ensures exists i :: 0 <= i < |vs| && vs[i].At(a) == BoundingBox(vs).vmax.At(a)
  {
    BoundingBoxAt(vs, a);
  }

  /** The box has a positive extent on every axis, so `v_max - v_min` is never zero. */
  predicate HasExtent(m: MinMax) {
    m.vmin.x < m.vmax.x && m.vmin.y < m.vmax.y && m.vmin.z < m.vmax.z
  }

  lemma HasExtentAt(m: MinMax, a: Axis)
    requires HasExtent(m)
    ensures m.vmin.At(a) < m.vmax.At(a)
  {
  }

  /** `(v - v_min) / (v_max - v_min)` for one vertex. */
  function MinMaxScale(v: Vec3, m: MinMax): (n: Vec3)
    requires HasExtent(m)
  {
    Vec3((v.x - m.vmin.x) / (m.vmax.x - m.vmin.x),
         (v.y - m.vmin.y) / (m.vmax.y - m.vmin.y),
         (v.z - m.vmin.z) / (m.vmax.z - m.vmin.z))
  }

  /**
   * `minmax_normalize`: every vertex is rescaled on its own, with the
   * bounding box of the whole set as metadata.  The source divides by
   * `v_max - v_min` unguarded, so a flat axis is excluded here.
   */
  function MinMaxNormalize(vs: seq<Vec3>): (r: (seq<Vec3>, MinMax))
    requires |vs| > 0 && HasExtent(BoundingBox(vs))
    ensures r.1 == BoundingBox(vs)
    ensures |r.0| == |vs|
    ensures forall i :: 0 <= i < |vs| ==> r.0[i] == MinMaxScale(vs[i], r.1)
  {
    var m := BoundingBox(vs);
    (seq(|vs|, i requires 0 <= i < |vs| => MinMaxScale(vs[i], m)), m)
  }

  lemma MinMaxScaleAt(v: Vec3, m: MinMax, a: Axis)
    requires HasExtent(m)
    ensures MinMaxScale(v, m).At(a) == (v.At(a) - m.vmin.At(a)) / (m.vmax.At(a) - m.vmin.At(a))
  {
  }

  /** A coordinate between `lo < hi` is rescaled into [0, 1]; the ends go to 0 and 1. */
  lemma ScaleIntoUnit(c: real, lo: real, hi: real)
    requires lo <= c <= hi && lo < hi
    ensures 0.0 <= (c - lo) / (hi - lo) <= 1.0
    ensures c == lo ==> (c - lo) / (hi - lo) == 0.0
    ensures c == hi ==> (c - lo) / (hi - lo) == 1.0
  {
    var w := hi - lo;
    var q := (c - lo) / w;
    assert q * w == c - lo;
    if q > 1.0 {
      MulMonoStrict(1.0, q, w);
    }
    if q < 0.0 {
      MulMonoStrict(q, 0.0, w);
    }
  }

  /** Min-max output lies in the unit cube on every axis. */
  lemma MinMaxNormalizeInUnitCube(vs: seq<Vec3>, i: int, a: Axis)
    requires |vs| > 0 && HasExtent(BoundingBox(vs))
    requires 0 <= i < |vs|
    ensures 0.0 <= MinMaxNormalize(vs).0[i].At(a) <= 1.0
  {
    var m := BoundingBox(vs);
    BoundingBoxTight(vs, a);
    HasExtentAt(m, a);
    MinMaxScaleAt(vs[i], m, a);
    ScaleIntoUnit(vs[i].At(a), m.vmin.At(a), m.vmax.At(a));
  }

  /** On every axis some vertex goes to 0 (the minimum) and some to 1 (the maximum). */
  lemma MinMaxNormalizeAttainsEnds(vs: seq<Vec3>, a: Axis)
    requires |vs| > 0 && HasExtent(BoundingBox(vs))
    ensures exists i :: 0 <= i < |vs| && MinMaxNormalize(vs).0[i].At(a) == 0.0
    ensures exists j :: 0 <= j < |vs| && MinMaxNormalize(vs).0[j].At(a) == 1.0
  {
    var m := BoundingBox(vs);
    var n := MinMaxNormalize(vs).0;
    BoundingBoxTight(vs, a);
    var i :| 0 <= i < |vs| && vs[i].At(a) == m.vmin.At(a);
    var j :| 0 <= j < |vs| && vs[j].At(a) == m.vmax.At(a);
    HasExtentAt(m, a);
    MinMaxScaleAt(vs[i], m, a);
    ScaleIntoUnit(vs[i].At(a), m.vmin.At(a), m.vmax.At(a));
    MinMaxScaleAt(vs[j], m, a);
    ScaleIntoUnit(vs[j].At(a), m.vmin.At(a), m.vmax.At(a));
    assert n[i].At(a) == 0.0;
    assert n[j].At(a) == 1.0;
  }

  // ---------------------------------------------------------------------
  // Unit-sphere normalisation (lines 18-25)
  // ---------------------------------------------------------------------

  /** `v / s` for one vertex. */
  function Shrink(v: Vec3, s: real): Vec3
    requires s != 0.0
  {
    Vec3(v.x / s, v.y / s, v.z / s)
  }

  /**
   * `unit_sphere_normalize`: every vertex is centred on the centroid and
   * divided by the largest centroid distance `maxDist`, which is returned
   * with the centroid as metadata.  The source divides by `max_dist`
   * unguarded, so coincident vertices (`max_dist == 0`) are excluded.
   */
  function UnitSphereNormalize(vs: seq<Vec3>, maxDist: real): (r: (seq<Vec3>, Sphere))
    requires |vs| > 0 && IsMaxDist(vs, maxDist) && maxDist > 0.0
    ensures r.1 == Sphere(Mean(vs), maxDist)
    ensures |r.0| == |vs|
    ensures forall i :: 0 <= i < |vs| ==> r.0[i] == Shrink(Centered(vs, r.1.center)[i], maxDist)
  {
    var c := Mean(vs);
    var centered := Centered(vs, c);
    (seq(|vs|, i requires 0 <= i < |vs| => Shrink(centered[i], maxDist)), Sphere(c, maxDist))
  }

  /** Summing a centred column subtracts the centre once per vertex. */
  lemma {:induction false} SumOfCentered(vs: seq<Vec3>, c: Vec3, a: Axis)
    ensures AxisSum(Centered(vs, c), a) == AxisSum(vs, a) - (|vs| as real) * c.At(a)
  {
    if |vs| > 0 {
      var k := |vs| - 1;
      assert Centered(vs, c)[..k] == Centered(vs[..k], c);
      SumOfCentered(vs[..k], c, a);
    }
  }

  /** The centre is the per-axis mean: the centred columns sum to zero. */
  lemma MeanCentersColumns(vs: seq<Vec3>, a: Axis)
    requires |vs| > 0
    ensures AxisSum(Centered(vs, Mean(vs)), a) == 0.0
  {
    SumOfCentered(vs, Mean(vs), a);
  }

  /** A column bounded by `lo` and `hi` sums to between `n * lo` and `n * hi`. */
  lemma {:induction false} SumBetween(vs: seq<Vec3>, a: Axis, lo: real, hi: real)
    requires forall i :: 0 <= i < |vs| ==> lo <= vs[i].At(a) <= hi
    ensures lo * (|vs| as real) <= AxisSum(vs, a) <= hi * (|vs| as real)
  {
    if |vs| > 0 {
      var k := |vs| - 1;
      assert forall i :: 0 <= i < k ==> vs[..k][i] == vs[i];
      SumBetween(vs[..k], a, lo, hi);
      StepBetween(lo, hi, AxisSum(vs[..k], a), vs[k].At(a), |vs[..k]| as real, |vs| as real);
    }
  }

  /** A column mean lies between any bounds of its entries. */
  lemma MeanBetween(vs: seq<Vec3>, a: Axis, lo: real, hi: real)
    requires |vs| > 0
    requires forall i :: 0 <= i < |vs| ==> lo <= vs[i].At(a) <= hi
    ensures lo <= AxisMean(vs, a) <= hi
  {
    SumBetween(vs, a, lo, hi);
    QuotientBetween(AxisSum(vs, a), |vs| as real, lo, hi);
  }

  lemma MeanBetweenExtremes(vs: seq<Vec3>, a: Axis)
    requires |vs| > 0
    ensures AxisMin(vs, a) <= AxisMean(vs, a) <= AxisMax(vs, a)
  {
    MeanBetween(vs, a, AxisMin(vs, a), AxisMax(vs, a));
  }

  /** The centroid lies inside the bounding box. */
  lemma MeanWithinBox(vs: seq<Vec3>, a: Axis)
    requires |vs| > 0
    ensures BoundingBox(vs).vmin.At(a) <= Mean(vs).At(a) <= BoundingBox(vs).vmax.At(a)
  {
    BoundingBoxAt(vs, a);
    MeanBetweenExtremes(vs, a);
  }

  /** Dividing by `s` divides the squared norm by `s * s`. */
  lemma SqNormShrink(v: Vec3, s: real)
    requires s > 0.0
    ensures SqNorm(Shrink(v, s)) * (s * s) == SqNorm(v)
  {
    assert (v.x / s) * (v.x / s) * (s * s) == v.x * v.x;
    assert (v.y / s) * (v.y / s) * (s * s) == v.y * v.y;
    assert (v.z / s) * (v.z / s) * (s * s) == v.z * v.z;
  }

  /** A vector no longer than `d` shrinks by `d` into the unit ball. */
  lemma ShrinkIntoBall(u: Vec3, d: real)
    requires d > 0.0 && SqNorm(u) <= d * d
    ensures SqNorm(Shrink(u, d)) <= 1.0
    ensures forall a: Axis :: -1.0 <= Shrink(u, d).At(a) <= 1.0
  {
    var n := Shrink(u, d);
    calc {
      SqNorm(n) * (d * d);
      == { SqNormShrink(u, d); }
      SqNorm(u);
      <= d * d;
    }
    RatioAtMostOne(SqNorm(n), d);
    forall a: Axis ensures -1.0 <= n.At(a) <= 1.0 {
      SquareBelowSqNorm(n, a);
      SquareAtMostOne(n.At(a));
    }
  }

  /** A vector exactly `d` long shrinks by `d` onto the unit sphere. */
  lemma ShrinkOntoSphere(u: Vec3, d: real)
    requires d > 0.0 && SqNorm(u) == d * d
    ensures SqNorm(Shrink(u, d)) == 1.0
  {
    calc {
      SqNorm(Shrink(u, d)) * (d * d);
      == { SqNormShrink(u, d); }
      SqNorm(u);
      == d * d;
    }
    RatioIsOne(SqNorm(Shrink(u, d)), d);
  }

  /**
   * Unit-sphere output lies in the closed unit ball, hence in [-1, 1] on
   * every axis, and the farthest vertex lands on the sphere itself.
   */
  lemma UnitSphereInBall(vs: seq<Vec3>, maxDist: real)
    requires |vs| > 0 && IsMaxDist(vs, maxDist) && maxDist > 0.0
    ensures forall i :: 0 <= i < |vs| ==> SqNorm(UnitSphereNormalize(vs, maxDist).0[i]) <= 1.0
    ensures forall i, a: Axis :: 0 <= i < |vs| ==> -1.0 <= UnitSphereNormalize(vs, maxDist).0[i].At(a) <= 1.0
    ensures exists i :: 0 <= i < |vs| && SqNorm(UnitSphereNormalize(vs, maxDist).0[i]) == 1.0
  {
    var n := UnitSphereNormalize(vs, maxDist).0;
    var c := Mean(vs);
    forall i | 0 <= i < |vs|
      ensures SqNorm(n[i]) <= 1.0
      ensures forall a: Axis :: -1.0 <= n[i].At(a) <= 1.0
    {
      ShrinkIntoBall(Sub(vs[i], c), maxDist);
    }
    var k :| 0 <= k < |vs| && SqNorm(Sub(vs[k], c)) == MaxSqDist(vs, c);
    ShrinkOntoSphere(Sub(vs[k], c), maxDist);
    assert SqNorm(n[k]) == 1.0;
  }

  // ---------------------------------------------------------------------
  // The unit-sphere shift (line 46)
  // ---------------------------------------------------------------------

  /** `(norm_us + 1) / 2.0` for one vertex. */
  function ShiftToUnit(v: Vec3): Vec3 {
    Vec3((v.x + 1.0) / 2.0, (v.y + 1.0) / 2.0, (v.z + 1.0) / 2.0)
  }

  /** `(norm_us + 1) / 2.0` over all vertices. */
  function ShiftAll(ns: seq<Vec3>): (r: seq<Vec3>)
    ensures |r| == |ns|
    ensures forall i :: 0 <= i < |ns| ==> r[i] == ShiftToUnit(ns[i])
  {
    seq(|ns|, i requires 0 <= i < |ns| => ShiftToUnit(ns[i]))
  }

  /** The shift maps a coordinate in [-1, 1] into [0, 1], and only such coordinates. */
  lemma ShiftRange(v: Vec3, a: Axis)
    ensures -1.0 <= v.At(a) <= 1.0 <==> 0.0 <= ShiftToUnit(v).At(a) <= 1.0
  {
  }

  /** The shift is onto [0, 1]: every target has a preimage in [-1, 1]. */
  lemma ShiftOnto(s: real)
    requires 0.0 <= s <= 1.0
    ensures var n := s * 2.0 - 1.0; -1.0 <= n <= 1.0 && (n + 1.0) / 2.0 == s
  {
  }

  /** The shifted unit-sphere output is inside the unit cube. */
  lemma ShiftedUnitSphereInUnitCube(vs: seq<Vec3>, maxDist: real)
    requires |vs| > 0 && IsMaxDist(vs, maxDist) && maxDist > 0.0
    ensures forall i, a: Axis :: 0 <= i < |vs| ==>
      0.0 <= ShiftAll(UnitSphereNormalize(vs, maxDist).0)[i].At(a) <= 1.0
  {
    var n := UnitSphereNormalize(vs, maxDist).0;
    UnitSphereInBall(vs, maxDist);
    forall i, a: Axis | 0 <= i < |vs| ensures 0.0 <= ShiftAll(n)[i].At(a) <= 1.0 {
      ShiftRange(n[i], a);
    }
  }

  // ---------------------------------------------------------------------
  // Quantisation (lines 27-30)
  // ---------------------------------------------------------------------

  /** `np.clip(x, 0.0, 1.0)`. */
  function Clip(x: real): (c: real)
    ensures 0.0 <= c <= 1.0
    ensures 0.0 <= x <= 1.0 ==> c == x
  {
    if x < 0.0 then 0.0 else if x > 1.0 then 1.0 else x
  }

  /**
   * `floor(clip(x) * (bins - 1))` for one coordinate: a grid index in
   * 0 .. bins - 1 whenever bins >= 1.  The source applies no check to
   * `bins`.
   */
  function QuantizeCoord(x: real, bins: int): (q: int)
    ensures bins >= 1 ==> 0 <= q <= bins - 1
  {
    ScaledFloor(Clip(x), (bins - 1) as real)
  }

  function QuantizeVertex(v: Vec3, bins: int): Cell {
    Cell(QuantizeCoord(v.x, bins), QuantizeCoord(v.y, bins), QuantizeCoord(v.z, bins))
  }

  /**
   * `quantize`: one grid cell per vertex, in order, every coordinate in
   * 0 .. bins - 1 when bins >= 1.  Its default `bins=1024` is an explicit
   * argument here.
   */
  function Quantize(vs: seq<Vec3>, bins: int): (q: seq<Cell>)
    ensures |q| == |vs|
    ensures forall i, a: Axis :: 0 <= i < |vs| ==> q[i].At(a) == QuantizeCoord(vs[i].At(a), bins)
    ensures bins >= 1 ==> forall i, a: Axis :: 0 <= i < |vs| ==> 0 <= q[i].At(a) < bins
  {
    seq(|vs|, i requires 0 <= i < |vs| => QuantizeVertex(vs[i], bins))
  }

  /** Quantisation is monotone. */
  lemma QuantizeMonotone(x: real, y: real, bins: int)
    requires x <= y && bins >= 1
    ensures QuantizeCoord(x, bins) <= QuantizeCoord(y, bins)
  {
    ScaledFloorMono(Clip(x), Clip(y), (bins - 1) as real);
  }

  /** 0 maps to the first cell and 1 to the last; inputs outside [0, 1] are clamped. */
  lemma QuantizeEnds(x: real, bins: int)
    ensures QuantizeCoord(0.0, bins) == 0
    ensures QuantizeCoord(1.0, bins) == bins - 1
    ensures x <= 0.0 ==> QuantizeCoord(x, bins) == 0
    ensures x >= 1.0 ==> QuantizeCoord(x, bins) == bins - 1
  {
  }

  /** The grid fits `np.int32` whenever bins <= 2 ** 31, so the cast loses nothing. */
  lemma QuantizeFitsInt32(x: real, bins: int)
    requires 1 <= bins <= 0x8000_0000
    ensures -0x8000_0000 <= QuantizeCoord(x, bins) < 0x8000_0000
  {
  }
}
