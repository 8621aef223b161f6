/**
 * Points, bounding boxes and the two helpers of src/utils/math_utils.py:
 * the position on a circle around a center and the statistics of a
 * bounding box. Coordinates are reals; the trigonometric functions and the
 * degree/radian conversions of the numeric library are carried as opaque
 * function values in `Trig`.
 */
module Geometry {

  datatype Vec3 = Vec3(x: real, y: real, z: real)
  {
    /** Component `axis` (0 = x, 1 = y, 2 = z). */
    function Get(axis: nat): real
      requires axis < 3
    {
      if axis == 0 then x else if axis == 1 then y else z
    }
  }

  const Origin: Vec3 := Vec3(0.0, 0.0, 0.0)

  /** The eight corners a host bounding-box query returns. */
  type BoundingBox = b: seq<Vec3> | |b| == 8
    witness [Vec3(0.0, 0.0, 0.0), Vec3(0.0, 0.0, 0.0), Vec3(0.0, 0.0, 0.0), Vec3(0.0, 0.0, 0.0),
             Vec3(0.0, 0.0, 0.0), Vec3(0.0, 0.0, 0.0), Vec3(0.0, 0.0, 0.0), Vec3(0.0, 0.0, 0.0)]

  /** `np.zeros(shape=(8, 3))`: the box every entity starts with. */
  const ZeroBox: BoundingBox := [Origin, Origin, Origin, Origin, Origin, Origin, Origin, Origin]

  /** The numeric library's `radians`, `rad2deg`, `cos` and `sin`, left uninterpreted. */
  datatype Trig = Trig(radians: real -> real, degrees: real -> real, cos: real -> real, sin: real -> real)

  // ---------------------------------------------------------------------
  // Per-axis statistics of a set of corners (`np.max/np.min/np.mean(bbox, axis=0)`).

  function AxisMax(corners: seq<Vec3>, axis: nat): real
    requires |corners| > 0 && axis < 3
  {
    if |corners| == 1 then corners[0].Get(axis)
    else
      var rest := AxisMax(corners[1..], axis);
      if corners[0].Get(axis) >= rest then corners[0].Get(axis) else rest
  }

  function AxisMin(corners: seq<Vec3>, axis: nat): real
    requires |corners| > 0 && axis < 3
  {
    if |corners| == 1 then corners[0].Get(axis)
    else
      var rest := AxisMin(corners[1..], axis);
      if corners[0].Get(axis) <= rest then corners[0].Get(axis) else rest
  }

  /** The maximum bounds every corner from above and is one of them; likewise the minimum from below. */
  lemma {:induction false} AxisBounds(corners: seq<Vec3>, axis: nat)
    requires |corners| > 0 && axis < 3
    ensures forall i :: 0 <= i < |corners| ==> AxisMin(corners, axis) <= corners[i].Get(axis) <= AxisMax(corners, axis)
    ensures exists i :: 0 <= i < |corners| && corners[i].Get(axis) == AxisMax(corners, axis)
    ensures exists i :: 0 <= i < |corners| && corners[i].Get(axis) == AxisMin(corners, axis)
  {
    if |corners| > 1 {
      var rest := corners[1..];
      AxisBounds(rest, axis);
      forall i | 1 <= i < |corners|
        ensures AxisMin(corners, axis) <= corners[i].Get(axis) <= AxisMax(corners, axis)
      {
        assert corners[i] == rest[i - 1];
      }
      var j :| 0 <= j < |rest| && rest[j].Get(axis) == AxisMax(rest, axis);
      assert corners[j + 1] == rest[j];
      var l :| 0 <= l < |rest| && rest[l].Get(axis) == AxisMin(rest, axis);
      assert corners[l + 1] == rest[l];
    }
  }

  function AxisSum(corners: seq<Vec3>, axis: nat): real
    requires axis < 3
  {
    if corners == [] then 0.0 else corners[0].Get(axis) + AxisSum(corners[1..], axis)
  }

  /** The sum of the corners lies between |corners| times their minimum and maximum. */
  lemma {:induction false} AxisSumBounds(corners: seq<Vec3>, axis: nat, lo: real, hi: real)
    requires axis < 3
    requires forall i :: 0 <= i < |corners| ==> lo <= corners[i].Get(axis) <= hi
    ensures |corners| as real * lo <= AxisSum(corners, axis) <= |corners| as real * hi
  {
    if corners != [] {
      AxisSumBounds(corners[1..], axis, lo, hi);
    }
  }

  /** The per-axis mean of the corners. */
  function Mean(corners: seq<Vec3>): Vec3
    requires |corners| > 0
  {
    var n := |corners| as real;
    Vec3(AxisSum(corners, 0) / n, AxisSum(corners, 1) / n, AxisSum(corners, 2) / n)
  }

  lemma DivBetween(s: real, n: real, lo: real, hi: real)
    requires n > 0.0 && n * lo <= s <= n * hi
    ensures lo <= s / n <= hi
  {
    var q := s / n;
    assert q * n == s;
  }

  lemma MeanGet(corners: seq<Vec3>, axis: nat)
    requires |corners| > 0 && axis < 3
    ensures Mean(corners).Get(axis) == AxisSum(corners, axis) / (|corners| as real)
  {
  }

  /** The per-axis average of the corners lies between their minimum and maximum. */
  lemma AverageBetween(corners: seq<Vec3>, axis: nat)
    requires |corners| > 0 && axis < 3
    ensures AxisMin(corners, axis) <= AxisSum(corners, axis) / (|corners| as real) <= AxisMax(corners, axis)
  {
    var lo, hi := AxisMin(corners, axis), AxisMax(corners, axis);
    AxisBounds(corners, axis);
    AxisSumBounds(corners, axis, lo, hi);
    DivBetween(AxisSum(corners, axis), |corners| as real, lo, hi);
  }

  /** The mean of the corners lies between their per-axis minimum and maximum. */
  lemma MeanBetween(corners: seq<Vec3>, axis: nat)
    requires |corners| > 0 && axis < 3
    ensures AxisMin(corners, axis) <= Mean(corners).Get(axis) <= AxisMax(corners, axis)
  {
    MeanGet(corners, axis);
    AverageBetween(corners, axis);
  }

  /** `p` is strictly beyond the corners' maximum or minimum on `axis`. */
  predicate OutOnAxis(corners: BoundingBox, p: Vec3, axis: nat)
    requires axis < 3
  {
    p.Get(axis) > AxisMax(corners, axis) || p.Get(axis) < AxisMin(corners, axis)
  }

  /** True iff `p` is out on some axis (`np.any(p > max) or np.any(p < min)`). */
  predicate OutOfBox(corners: BoundingBox, p: Vec3)
  {
    OutOnAxis(corners, p, 0) || OutOnAxis(corners, p, 1) || OutOnAxis(corners, p, 2)
  }

  /** On `axis`, `p` lies between two of the corners. */
  predicate BetweenCorners(corners: BoundingBox, p: Vec3, axis: nat)
    requires axis < 3
  {
    exists i, j :: 0 <= i < 8 && 0 <= j < 8 && corners[i].Get(axis) <= p.Get(axis) <= corners[j].Get(axis)
  }

  /** Within the box on every axis: between two of its corners. */
  lemma InBoxIsBetweenCorners(corners: BoundingBox, p: Vec3)
    ensures !OutOfBox(corners, p) <==> forall axis :: 0 <= axis < 3 ==> BetweenCorners(corners, p, axis)
  {
    if !OutOfBox(corners, p) {
      forall axis | 0 <= axis < 3
        ensures BetweenCorners(corners, p, axis)
      {
        AxisBounds(corners, axis);
        var i :| 0 <= i < 8 && corners[i].Get(axis) == AxisMin(corners, axis);
        var j :| 0 <= j < 8 && corners[j].Get(axis) == AxisMax(corners, axis);
        assert corners[i].Get(axis) <= p.Get(axis) <= corners[j].Get(axis);
      }
    } else {
      var axis: nat := if OutOnAxis(corners, p, 0) then 0 else if OutOnAxis(corners, p, 1) then 1 else 2;
      AxisBounds(corners, axis);
      assert !BetweenCorners(corners, p, axis);
    }
  }

  /** Every corner of a box lies inside it: boundary points are in bounds. */
  lemma CornersInBox(corners: BoundingBox, k: nat)
    requires k < 8
    ensures !OutOfBox(corners, corners[k])
  {
    AxisBounds(corners, 0);
    AxisBounds(corners, 1);
    AxisBounds(corners, 2);
  }

  // ---------------------------------------------------------------------
  // `position_2D_circle` (src/utils/math_utils.py:5-12).

  /** A negative angle gets 360 added, once. */
  function NormalizeAngle(angle: real): (a: real)
    ensures a == angle || a == angle + 360.0
    ensures a >= 0.0 || angle < -360.0
    ensures -360.0 <= angle < 360.0 ==> 0.0 <= a < 360.0
  {
    if angle < 0.0 then 360.0 + angle else angle
  }

  /** The point at `angle` degrees on the circle of `radius` around `center`, at `height`. */
  function Position2DCircle(angle: real, radius: real, height: real, center: Vec3, trig: Trig): (p: Vec3)
    ensures p.z == height
    ensures var t := trig.radians(NormalizeAngle(angle));
      p.x - center.x == radius * trig.cos(t) && p.y - center.y == radius * trig.sin(t)
  {
    var radian := trig.radians(NormalizeAngle(angle));
    Vec3(center.x + radius * trig.cos(radian), center.y + radius * trig.sin(radian), height)
  }

  /** With cos^2 + sin^2 = 1 the point lies at planar distance |radius| from the center. */
  lemma CirclePointDistance(angle: real, radius: real, height: real, center: Vec3, trig: Trig)
    requires var t := trig.radians(NormalizeAngle(angle));
      trig.cos(t) * trig.cos(t) + trig.sin(t) * trig.sin(t) == 1.0
    ensures var p := Position2DCircle(angle, radius, height, center, trig);
      (p.x - center.x) * (p.x - center.x) + (p.y - center.y) * (p.y - center.y) == radius * radius
  {
    var t := trig.radians(NormalizeAngle(angle));
    var c, s := trig.cos(t), trig.sin(t);
    calc {
      (radius * c) * (radius * c) + (radius * s) * (radius * s);
      radius * radius * (c * c + s * s);
      radius * radius;
    }
  }

  // ---------------------------------------------------------------------
  // `compute_bbox_properties` (src/utils/math_utils.py:15-19).

  /** The box as queried, its top (maximum z) and its center (mean corner). */
  function BboxProperties(bbox: BoundingBox): (r: (BoundingBox, real, Vec3))
    ensures r.0 == bbox
    ensures r.1 == AxisMax(bbox, 2)
    ensures forall i :: 0 <= i < 8 ==> bbox[i].z <= r.1
    ensures exists i :: 0 <= i < 8 && bbox[i].z == r.1
    ensures forall axis :: 0 <= axis < 3 ==> r.2.Get(axis) == AxisSum(bbox, axis) / 8.0
    ensures forall axis :: 0 <= axis < 3 ==>
      AxisMin(bbox, axis) <= r.2.Get(axis) <= AxisMax(bbox, axis)
  {
    var height := AxisMax(bbox, 2);
    var center := Mean(bbox);
    AxisBounds(bbox, 2);
    assert forall axis :: 0 <= axis < 3 ==> center.Get(axis) == AxisSum(bbox, axis) / 8.0 by {
      forall axis | 0 <= axis < 3 ensures center.Get(axis) == AxisSum(bbox, axis) / 8.0 {
        MeanGet(bbox, axis);
      }
    }
    assert forall axis :: 0 <= axis < 3 ==> AxisMin(bbox, axis) <= center.Get(axis) <= AxisMax(bbox, axis) by {
      forall axis | 0 <= axis < 3 ensures AxisMin(bbox, axis) <= center.Get(axis) <= AxisMax(bbox, axis) {
        MeanBetween(bbox, axis);
      }
    }
    (bbox, height, center)
  }

  // ---------------------------------------------------------------------
  // Numeric conversions of the Python code.

  /** `int(r)`: truncation toward zero. */
  function Trunc(r: real): (i: int)
    ensures r >= 0.0 ==> i as real <= r < i as real + 1.0
    ensures r < 0.0 ==> i as real - 1.0 < r <= i as real
  {
    if r >= 0.0 then r.Floor else -((-r).Floor)
  }
}
