/** Points, sizes and rectangles of the Pebble graphics API, and the two
    projections the watchface uses to place things around its center. */
module Geometry {
  import opened Arith
  import opened Trig

  datatype Point = Point(x: int, y: int)
  datatype Size = Size(w: int, h: int)
  datatype Rect = Rect(x: int, y: int, w: int, h: int)

  /** The offset `(int)(lookup * distance / TRIG_MAX_RATIO)` of a projected point. */
  function Scaled(lookup: int, distance: int): int
  {
    TruncDiv(lookup * distance, TrigMaxRatio)
  }

  /** A zero lookup or distance gives no offset, a full-scale lookup the
      whole distance, and a negated lookup the negated offset. */
  lemma {:induction false} ScaledExact(lookup: int, distance: int)
    ensures lookup == 0 || distance == 0 ==> Scaled(lookup, distance) == 0
    ensures lookup == TrigMaxRatio ==> Scaled(lookup, distance) == distance
    ensures Scaled(-lookup, distance) == -Scaled(lookup, distance)
  {
    TruncDivExact(distance, TrigMaxRatio);
    assert (-lookup) * distance == -(lookup * distance);
    TruncDivNegate(lookup * distance, TrigMaxRatio);
  }

  /** `get_point_on_circle`: the point `distance` away from `center` at
      `angle`, clockwise from twelve o'clock, y growing downward. */
  function PointOnCircle(t: TrigTable, center: Point, angle: int, distance: int): Point
  {
    Point(center.x + Scaled(t.sin(angle), distance), center.y - Scaled(t.cos(angle), distance))
  }

  /** `get_point_on_ellipse`: like PointOnCircle with separate horizontal and
      vertical radii; with equal radii it is the circle projection. */
  function PointOnEllipse(t: TrigTable, center: Point, angle: int, wRadius: int, hRadius: int): Point
  {
    Point(center.x + Scaled(t.sin(angle), wRadius), center.y - Scaled(t.cos(angle), hRadius))
  }

  /** With equal radii the ellipse projection is the circle projection; a
      zero sine keeps the point on the vertical through the center, a zero
      cosine on the horizontal, and a zero distance at the center. */
  lemma {:induction false} ProjectionAxes(t: TrigTable, center: Point, angle: int, wRadius: int, hRadius: int)
    ensures wRadius == hRadius ==> PointOnEllipse(t, center, angle, wRadius, hRadius) == PointOnCircle(t, center, angle, wRadius)
    ensures t.sin(angle) == 0 ==> PointOnEllipse(t, center, angle, wRadius, hRadius).x == center.x
    ensures t.cos(angle) == 0 ==> PointOnEllipse(t, center, angle, wRadius, hRadius).y == center.y
    ensures PointOnCircle(t, center, angle, 0) == center
  {
    ScaledExact(t.sin(angle), wRadius);
    ScaledExact(t.cos(angle), hRadius);
    ScaledExact(t.sin(angle), 0);
    ScaledExact(t.cos(angle), 0);
  }

  /** A bounded lookup scales a non-negative distance to at most that distance. */
  lemma {:induction false} ScaledBound(lookup: int, distance: int)
    requires -TrigMaxRatio <= lookup <= TrigMaxRatio && distance >= 0
    ensures Abs(Scaled(lookup, distance)) <= distance
  {
    assert Abs(lookup * distance) == Abs(lookup) * distance;
    MulLeftMonotone(distance, Abs(lookup), TrigMaxRatio);
    TruncDivBound(lookup * distance, TrigMaxRatio, distance);
  }

  /** With the SDK's bounded tables, the projected point lies in the square
      of half-side `distance` around the center. */
  lemma {:induction false} CircleWithinDistance(t: TrigTable, center: Point, angle: int, distance: int)
    requires Bounded(t) && distance >= 0
    ensures Abs(PointOnCircle(t, center, angle, distance).x - center.x) <= distance
    ensures Abs(PointOnCircle(t, center, angle, distance).y - center.y) <= distance
  {
    ScaledBound(t.sin(angle), distance);
    ScaledBound(t.cos(angle), distance);
  }

  /** With bounded tables, an ellipse point lies in the box of half-sides
      wRadius by hRadius around the center. */
  lemma {:induction false} EllipseWithinBox(t: TrigTable, center: Point, angle: int, wRadius: int, hRadius: int)
    requires Bounded(t) && wRadius >= 0 && hRadius >= 0
    ensures Abs(PointOnEllipse(t, center, angle, wRadius, hRadius).x - center.x) <= wRadius
    ensures Abs(PointOnEllipse(t, center, angle, wRadius, hRadius).y - center.y) <= hRadius
  {
    ScaledBound(t.sin(angle), wRadius);
    ScaledBound(t.cos(angle), hRadius);
  }

  /** At twelve o'clock (sine 0, cosine 1) the point is straight above the
      center; at three o'clock (sine 1, cosine 0) straight to its right. */
  lemma AxisPoints(t: TrigTable, center: Point, angle: int, wRadius: int, hRadius: int)
    ensures t.sin(angle) == 0 && t.cos(angle) == TrigMaxRatio ==>
      PointOnEllipse(t, center, angle, wRadius, hRadius) == Point(center.x, center.y - hRadius)
    ensures t.sin(angle) == TrigMaxRatio && t.cos(angle) == 0 ==>
      PointOnEllipse(t, center, angle, wRadius, hRadius) == Point(center.x + wRadius, center.y)
  {
    ScaledExact(t.sin(angle), wRadius);
    ScaledExact(t.cos(angle), hRadius);
  }

  /** Because C truncates toward zero, mirror-image angles (opposite sine,
      equal cosine) give mirror-image points: the face is left-right symmetric. */
  lemma {:induction false} CircleMirror(t: TrigTable, center: Point, angle: int, angle': int, distance: int)
    requires t.sin(angle') == -t.sin(angle) && t.cos(angle') == t.cos(angle)
    ensures PointOnCircle(t, center, angle', distance).x - center.x
         == center.x - PointOnCircle(t, center, angle, distance).x
    ensures PointOnCircle(t, center, angle', distance).y == PointOnCircle(t, center, angle, distance).y
  {
    ScaledExact(t.sin(angle), distance);
  }

  lemma {:induction false} SquareMonotone(a: int, b: int)
    requires 0 <= a <= b
    ensures a * a <= b * b
  {
    MulLeftMonotone(a, a, b);
    MulLeftMonotone(b, a, b);
  }

  /** |Scaled(v, d)|^2 * R^2 <= v^2 * d^2 for a non-negative distance d. */
  lemma {:induction false} ScaledSquare(lookup: int, distance: int)
    requires distance >= 0
    ensures Scaled(lookup, distance) * Scaled(lookup, distance) * (TrigMaxRatio * TrigMaxRatio)
         <= lookup * lookup * (distance * distance)
  {
    var q := Scaled(lookup, distance);
    var a := Abs(q) * TrigMaxRatio;
    var b := Abs(lookup * distance);
    assert 0 <= a <= b;
    SquareMonotone(a, b);
    assert a * a == q * q * (TrigMaxRatio * TrigMaxRatio);
    assert b * b == lookup * lookup * (distance * distance);
  }

  /** The step that divides the squared bounds by R^2 = r * r: a slack of
      2r in the table entries is absorbed as long as 2 * d2 < r. */
  lemma {:induction false} SumOfSquaresBound(x2: int, y2: int, s2: int, c2: int, d2: int, r: int)
    requires r > 0 && 0 <= d2 && 2 * d2 < r
    requires x2 * (r * r) <= s2 * d2 && y2 * (r * r) <= c2 * d2 && s2 + c2 <= r * r + 2 * r
    ensures x2 + y2 <= d2
  {
    var r2 := r * r;
    MulLeftMonotone(d2, s2 + c2, r2 + 2 * r);
    assert (x2 + y2) * r2 <= d2 * r2 + d2 * (2 * r);
    MulLeftMonotone(r, 2 * d2, r - 1);
    assert (x2 + y2) * r2 < (d2 + 1) * r2;
    if x2 + y2 > d2 {
      MulLeftMonotone(r2, d2 + 1, x2 + y2);
    }
  }

  /** When the table entry at `angle` lies on the unit circle up to the
      error of rounding each entry to an integer (sin^2 + cos^2 at most
      R^2 + 2R), the projected point is no farther than `distance` from
      the center, for every distance a watch face can have (up to 181). */
  lemma {:induction false} CircleWithinRadius(t: TrigTable, center: Point, angle: int, distance: int)
    requires 0 <= distance <= 181
    requires t.sin(angle) * t.sin(angle) + t.cos(angle) * t.cos(angle) <= TrigMaxRatio * TrigMaxRatio + 2 * TrigMaxRatio
    ensures var p := PointOnCircle(t, center, angle, distance);
      (p.x - center.x) * (p.x - center.x) + (p.y - center.y) * (p.y - center.y) <= distance * distance
  {
    var p := PointOnCircle(t, center, angle, distance);
    var s, c := t.sin(angle), t.cos(angle);
    var qx, qy := Scaled(s, distance), Scaled(c, distance);
    assert p.x - center.x == qx;
    assert p.y - center.y == -qy;
    assert (-qy) * (-qy) == qy * qy;
    ScaledSquare(s, distance);
    ScaledSquare(c, distance);
    SquareMonotone(distance, 181);
    SumOfSquaresBound(qx * qx, qy * qy, s * s, c * c, distance * distance, TrigMaxRatio);
  }

  /** `text_rect` of `draw_hour_number`: a box of the measured text size
      placed so that its middle is at `center` (C halves the size rounding
      toward zero, so the box sits at most half a unit up and left). */
  function CenteredRect(center: Point, size: Size): Rect
  {
    Rect(center.x - TruncDiv(size.w, 2), center.y - TruncDiv(size.h, 2), size.w, size.h)
  }

  /** The box has the measured size, and for a non-negative size `center`
      is its middle, or half a unit right of or below it for an odd side. */
  lemma {:induction false} CenteredRectMiddle(center: Point, size: Size)
    ensures var r := CenteredRect(center, size);
      && r.w == size.w && r.h == size.h
      && (size.w >= 0 ==> 2 * (center.x - r.x) == r.w || 2 * (center.x - r.x) == r.w - 1)
      && (size.h >= 0 ==> 2 * (center.y - r.y) == r.h || 2 * (center.y - r.y) == r.h - 1)
  {
    TruncDivBracket(size.w, 2);
    TruncDivBracket(size.h, 2);
  }
}
