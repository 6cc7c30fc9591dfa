/** One redraw of the watchface: the layer geometry kept in the file's
    globals, the drawing context as the list of commands issued to it, and
    the order in which `update_proc` issues them. */
module Render {
  import opened Arith
  import opened Trig
  import opened Geometry
  import opened Layout
  import opened Hands

  const ClockFaceCornerRadius: int := 7
  const ClockFaceStrokeWidth: int := 2
  const CenterDotRadius: int := 5

  datatype Color = White | Red
  datatype Font = Gothic18Bold

  /** A drawing call on the graphics context, with the stroke, fill or text
      state in force when it was made. */
  datatype Cmd =
    | RoundRect(rect: Rect, cornerRadius: int, strokeWidth: int, stroke: Color)
    | Line(from: Point, to: Point, strokeWidth: int, stroke: Color)
    | Text(text: string, font: Font, box: Rect, color: Color)
    | FillCircle(center: Point, radius: int, fill: Color)

  /** The values of the globals `s_center`, `s_w_radius`, `s_h_radius`, `s_radius`. */
  datatype Dims = Dims(center: Point, wRadius: int, hRadius: int, radius: int)

  /** `grect_center_point`: origin plus half the size, halved as C does. */
  function CenterPoint(bounds: Rect): Point
  {
    Point(bounds.x + TruncDiv(bounds.w, 2), bounds.y + TruncDiv(bounds.h, 2))
  }

  /** For a non-negative size the center point is the middle of the
      rectangle, or half a unit left of or above it for an odd side. */
  lemma {:induction false} CenterPointMiddle(bounds: Rect)
    ensures var c := CenterPoint(bounds);
      && (bounds.w >= 0 ==> 2 * (c.x - bounds.x) == bounds.w || 2 * (c.x - bounds.x) == bounds.w - 1)
      && (bounds.h >= 0 ==> 2 * (c.y - bounds.y) == bounds.h || 2 * (c.y - bounds.y) == bounds.h - 1)
  {
    TruncDivBracket(bounds.w, 2);
    TruncDivBracket(bounds.h, 2);
  }

  /** `(int)(extent / 2 * (1 - CLOCK_FACE_BORDER_PERCENT))`: half the extent,
      reduced by one percent and truncated toward zero. */
  function BorderRadius(extent: int): int
  {
    TruncDiv(TruncDiv(extent, 2) * 99, 100)
  }

  /** For a non-negative extent the radius is non-negative, never exceeds
      half the extent, and leaves at least one unit of border as soon as
      half the extent is positive. */
  lemma {:induction false} BorderRadiusBounds(extent: int)
    requires extent >= 0
    ensures 0 <= BorderRadius(extent) <= TruncDiv(extent, 2)
    ensures extent >= 2 ==> BorderRadius(extent) < TruncDiv(extent, 2)
  {
    var half := TruncDiv(extent, 2);
    TruncDivBound(half * 99, 100, half);
    var r := BorderRadius(extent);
    if extent >= 2 && r >= half {
      MulLeftMonotone(100, half, r);
    }
  }

  /** What `calculate_dimensions` stores for a layer with these bounds. */
  function Dimensions(bounds: Rect): Dims
  {
    var w := BorderRadius(bounds.w);
    var h := BorderRadius(bounds.h);
    Dims(CenterPoint(bounds), w, h, if w < h then w else h)
  }

  /** `clock_face` of `draw_clock_face`: the box of half-sides wRadius by
      hRadius whose middle is the center. */
  function FaceRect(d: Dims): Rect
  {
    Rect(d.center.x - d.wRadius, d.center.y - d.hRadius, 2 * d.wRadius, 2 * d.hRadius)
  }

  /** The face outline is twice the radii across and centered on the center. */
  lemma FaceRectCentered(d: Dims)
    ensures var r := FaceRect(d);
      && r.w == 2 * d.wRadius && r.h == 2 * d.hRadius
      && r.x + r.w / 2 == d.center.x && r.y + r.h / 2 == d.center.y
  {
  }

  /** The geometry of any layer with non-negative size: the overall radius is
      the smaller of the two radii, both are non-negative, and the face
      outline lies inside the layer, one unit or more from its edges
      when the layer is at least 2 units across. */
  lemma {:induction false} DimensionsFitBounds(bounds: Rect)
    requires bounds.w >= 0 && bounds.h >= 0
    ensures var d := Dimensions(bounds);
      && d.radius == Min(d.wRadius, d.hRadius)
      && 0 <= d.radius && 0 <= d.wRadius && 0 <= d.hRadius
      && (bounds.w >= 2 ==> 2 * d.wRadius < bounds.w)
      && (bounds.h >= 2 ==> 2 * d.hRadius < bounds.h)
    ensures var r := FaceRect(Dimensions(bounds));
      && bounds.x <= r.x && r.x + r.w <= bounds.x + bounds.w
      && bounds.y <= r.y && r.y + r.h <= bounds.y + bounds.h
  {
    BorderRadiusBounds(bounds.w);
    BorderRadiusBounds(bounds.h);
    CenterPointMiddle(bounds);
  }

  /** The geometry of the 180 by 180 layer of a round watch: center (90, 90)
      and all three radii 89. */
  lemma Dimensions180()
    ensures Dimensions(Rect(0, 0, 180, 180)) == Dims(Point(90, 90), 89, 89, 89)
  {
  }

  /** The face outline command of `draw_clock_face`. */
  function FaceCmd(d: Dims): Cmd
  {
    RoundRect(FaceRect(d), ClockFaceCornerRadius, ClockFaceStrokeWidth, White)
  }

  /** The SDK angle of marker `hourIndex`. */
  function MarkerAngle(hourIndex: int): int
    requires 0 <= hourIndex < HourMarkerCount
  {
    DegreesToTrigAngle(MarkerDegrees(hourIndex))
  }

  /** The line `draw_hour_marker` draws: from the face ellipse inward by the
      marker's length, major markers longer and thicker. */
  function MarkerCmd(t: TrigTable, d: Dims, hourIndex: int): Cmd
    requires 0 <= hourIndex < HourMarkerCount
  {
    var major := IsMajorMarker(hourIndex);
    var length := MarkerLength(major);
    var angle := MarkerAngle(hourIndex);
    Line(PointOnEllipse(t, d.center, angle, d.wRadius, d.hRadius),
         PointOnEllipse(t, d.center, angle, d.wRadius - length, d.hRadius - length),
         MarkerWidth(major), White)
  }

  /** Every marker starts on the face ellipse at its angle and runs inward
      to the ellipse 15 units smaller at 12, 3, 6 and 9 and 8 units smaller
      elsewhere; when the face is at least a major marker deep, both ends
      stay inside the face rectangle. The markers at 12, 3, 6 and 9 are the
      thick ones. */
  lemma {:induction false} MarkerInsideFace(t: TrigTable, d: Dims, hourIndex: int)
    requires Bounded(t) && 0 <= hourIndex < HourMarkerCount
    requires d.wRadius >= MajorMarkerLength && d.hRadius >= MajorMarkerLength
    ensures var c, angle := MarkerCmd(t, d, hourIndex), DegreesToTrigAngle(hourIndex * 30);
      var length := if hourIndex in {0, 3, 6, 9} then 15 else 8;
      && c.Line?
      && c.from == PointOnEllipse(t, d.center, angle, d.wRadius, d.hRadius)
      && c.to == PointOnEllipse(t, d.center, angle, d.wRadius - length, d.hRadius - length)
    ensures var c := MarkerCmd(t, d, hourIndex);
      && Abs(c.from.x - d.center.x) <= d.wRadius && Abs(c.from.y - d.center.y) <= d.hRadius
      && Abs(c.to.x - d.center.x) <= d.wRadius && Abs(c.to.y - d.center.y) <= d.hRadius
    ensures MarkerCmd(t, d, hourIndex).strokeWidth
         == if hourIndex in {0, 3, 6, 9} then MajorMarkerWidth else MinorMarkerWidth
  {
    var length := MarkerLength(IsMajorMarker(hourIndex));
    var angle := MarkerAngle(hourIndex);
    MajorMarkers(hourIndex);
    EllipseWithinBox(t, d.center, angle, d.wRadius, d.hRadius);
    EllipseWithinBox(t, d.center, angle, d.wRadius - length, d.hRadius - length);
  }

  /** `number_distance`: the hour labels sit inside the major markers. */
  function NumberDistance(d: Dims): int
  {
    d.radius - MajorMarkerLength - NumberOffsetFromMarker
  }

  /** What `draw_hour_number` draws for marker `hourIndex`: nothing for a
      minor marker; for a major one its label, centered on the point
      NumberDistance from the center at the marker's angle. */
  function NumberCmds(t: TrigTable, d: Dims, hourIndex: int, measure: string -> Size): seq<Cmd>
    requires 0 <= hourIndex < HourMarkerCount
  {
    if !IsMajorMarker(hourIndex) then []
    else
      var pos := PointOnCircle(t, d.center, MarkerAngle(hourIndex), NumberDistance(d));
      var caption := HourLabel(hourIndex);
      [Text(caption, Gothic18Bold, CenteredRect(pos, measure(caption)), White)]
  }

  /** Exactly the markers at 12, 3, 6 and 9 get a label, one each. */
  lemma {:induction false} NumberCmdsCount(t: TrigTable, d: Dims, hourIndex: int, measure: string -> Size)
    requires 0 <= hourIndex < HourMarkerCount
    ensures |NumberCmds(t, d, hourIndex, measure)| <= 1
    ensures |NumberCmds(t, d, hourIndex, measure)| == 1 <==> hourIndex in {0, 3, 6, 9}
  {
    MajorMarkers(hourIndex);
  }

  /** A label is its marker's display hour in decimal, in a box of the
      measured size whose middle is the label point; with bounded tables
      that point lies within NumberDistance of the center, so on a face of
      radius 25 or more the label point is inside the major markers. */
  lemma {:induction false} NumberPlacement(t: TrigTable, d: Dims, hourIndex: int, measure: string -> Size)
    requires Bounded(t) && 0 <= hourIndex < HourMarkerCount && IsMajorMarker(hourIndex)
    requires d.radius >= MajorMarkerLength + NumberOffsetFromMarker
    ensures var c := NumberCmds(t, d, hourIndex, measure)[0];
      var size := measure(c.text);
      var pos := PointOnCircle(t, d.center, MarkerAngle(hourIndex), NumberDistance(d));
      && c.Text? && c.text == DecimalString(DisplayHour(hourIndex))
      && c.box.w == size.w && c.box.h == size.h
      && (size.w >= 0 ==> 2 * (pos.x - c.box.x) == size.w || 2 * (pos.x - c.box.x) == size.w - 1)
      && (size.h >= 0 ==> 2 * (pos.y - c.box.y) == size.h || 2 * (pos.y - c.box.y) == size.h - 1)
      && Abs(pos.x - d.center.x) <= d.radius - MajorMarkerLength - NumberOffsetFromMarker
      && Abs(pos.y - d.center.y) <= d.radius - MajorMarkerLength - NumberOffsetFromMarker
  {
    var pos := PointOnCircle(t, d.center, MarkerAngle(hourIndex), NumberDistance(d));
    HourLabelFits(hourIndex);
    CenteredRectMiddle(pos, measure(HourLabel(hourIndex)));
    CircleWithinDistance(t, d.center, MarkerAngle(hourIndex), NumberDistance(d));
  }

  /** The commands of the first n iterations of `draw_hour_markers`' loop:
      each marker's line followed by its label if it has one. */
  function MarkersUpTo(t: TrigTable, d: Dims, measure: string -> Size, n: int): seq<Cmd>
    requires 0 <= n <= HourMarkerCount
    decreases n
  {
    if n == 0 then []
    else MarkersUpTo(t, d, measure, n - 1) + [MarkerCmd(t, d, n - 1)] + NumberCmds(t, d, n - 1, measure)
  }

  /** Where the line of marker i stands among the marker commands: after
      i lines and the labels of the (i + 2) / 3 major markers before it. */
  function LinePosition(i: int): int
  {
    i + (i + 2) / 3
  }

  /** The first n markers produce n lines and a label for each major one. */
  lemma {:induction false} MarkersUpToLength(t: TrigTable, d: Dims, measure: string -> Size, n: int)
    requires 0 <= n <= HourMarkerCount
    ensures |MarkersUpTo(t, d, measure, n)| == LinePosition(n)
    decreases n
  {
    if n > 0 {
      MarkersUpToLength(t, d, measure, n - 1);
      NumberCmdsCount(t, d, n - 1, measure);
    }
  }

  /** One more iteration of the marker loop appends marker i's line and label. */
  lemma MarkersStep(t: TrigTable, d: Dims, measure: string -> Size, prefix: seq<Cmd>, i: int)
    requires 0 <= i < HourMarkerCount
    ensures prefix + MarkersUpTo(t, d, measure, i) + [MarkerCmd(t, d, i)] + NumberCmds(t, d, i, measure)
         == prefix + MarkersUpTo(t, d, measure, i + 1)
  {
  }

  /** Marker i's line is at LinePosition(i) among the first n marker
      commands, and a major marker's label comes right after it. */
  lemma {:induction false} MarkerAt(t: TrigTable, d: Dims, measure: string -> Size, n: int, i: int)
    requires 0 <= i < n <= HourMarkerCount
    ensures LinePosition(i) < |MarkersUpTo(t, d, measure, n)|
    ensures MarkersUpTo(t, d, measure, n)[LinePosition(i)] == MarkerCmd(t, d, i)
    ensures IsMajorMarker(i) ==>
      && LinePosition(i) + 1 < |MarkersUpTo(t, d, measure, n)|
      && MarkersUpTo(t, d, measure, n)[LinePosition(i) + 1] == NumberCmds(t, d, i, measure)[0]
    decreases n
  {
    var prev := MarkersUpTo(t, d, measure, n - 1);
    var cur := MarkersUpTo(t, d, measure, n);
    MarkersUpToLength(t, d, measure, n - 1);
    MarkersUpToLength(t, d, measure, n);
    assert cur == prev + [MarkerCmd(t, d, n - 1)] + NumberCmds(t, d, n - 1, measure);
    if i < n - 1 {
      MarkerAt(t, d, measure, n - 1, i);
    }
  }

  /** The same for all markers at once. */
  lemma {:induction false} MarkersLayout(t: TrigTable, d: Dims, measure: string -> Size)
    ensures var m := MarkersUpTo(t, d, measure, HourMarkerCount);
      forall i :: 0 <= i < HourMarkerCount ==>
        && LinePosition(i) < |m| && m[LinePosition(i)] == MarkerCmd(t, d, i)
        && (IsMajorMarker(i) ==> LinePosition(i) + 1 < |m| && m[LinePosition(i) + 1] == NumberCmds(t, d, i, measure)[0])
  {
    forall i | 0 <= i < HourMarkerCount
      ensures var m := MarkersUpTo(t, d, measure, HourMarkerCount);
        && LinePosition(i) < |m| && m[LinePosition(i)] == MarkerCmd(t, d, i)
        && (IsMajorMarker(i) ==> LinePosition(i) + 1 < |m| && m[LinePosition(i) + 1] == NumberCmds(t, d, i, measure)[0])
    {
      MarkerAt(t, d, measure, HourMarkerCount, i);
    }
  }

  /** A major marker's command is a text command holding its label. */
  lemma NumberLabel(t: TrigTable, d: Dims, hourIndex: int, measure: string -> Size)
    requires 0 <= hourIndex < HourMarkerCount && IsMajorMarker(hourIndex)
    ensures |NumberCmds(t, d, hourIndex, measure)| == 1
    ensures NumberCmds(t, d, hourIndex, measure)[0].Text?
    ensures NumberCmds(t, d, hourIndex, measure)[0].text == HourLabel(hourIndex)
  {
  }

  /** The label of major marker i follows its line among all marker commands. */
  lemma {:induction false} LabelAt(t: TrigTable, d: Dims, measure: string -> Size, i: int, k: int)
    requires 0 <= i < HourMarkerCount && IsMajorMarker(i) && k == LinePosition(i) + 1
    ensures var m := MarkersUpTo(t, d, measure, HourMarkerCount);
      k < |m| && m[k].Text? && m[k].text == HourLabel(i)
  {
    MarkerAt(t, d, measure, HourMarkerCount, i);
    NumberLabel(t, d, i, measure);
  }

  /** The marker commands are 16 long, and the labels among them, in
      order, are 12, 3, 6 and 9, each right after its marker's line. */
  lemma {:induction false} MarkerLabels(t: TrigTable, d: Dims, measure: string -> Size)
    ensures var m := MarkersUpTo(t, d, measure, HourMarkerCount);
      && |m| == 16
      && m[1].Text? && m[1].text == "12" && m[5].Text? && m[5].text == "3"
      && m[9].Text? && m[9].text == "6" && m[13].Text? && m[13].text == "9"
  {
    MarkersUpToLength(t, d, measure, HourMarkerCount);
    MajorLabels();
    LabelAt(t, d, measure, 0, 1);
    LabelAt(t, d, measure, 3, 5);
    LabelAt(t, d, measure, 6, 9);
    LabelAt(t, d, measure, 9, 13);
  }

  /** The colour of each hand: the second hand is red. */
  function HandColor(hand: Hand): Color
  {
    if hand == SecondHand then Red else White
  }

  /** The line `draw_hand` draws for a hand at SDK angle `angle`. */
  function HandCmd(t: TrigTable, d: Dims, angle: int, hand: Hand): Cmd
  {
    Line(d.center, PointOnCircle(t, d.center, angle, HandLength(d.radius, hand)), HandWidth(hand), HandColor(hand))
  }

  /** What `draw_clock_hands` draws at time `now`: the hour, minute and
      second hands, then the center dot over them. */
  function HandsCmds(t: TrigTable, d: Dims, now: Time): seq<Cmd>
    requires ValidTime(now)
  {
    [ HandCmd(t, d, DegreesToTrigAngle(HourDegrees(now.hour, now.minute)), HourHand),
      HandCmd(t, d, DegreesToTrigAngle(MinuteDegrees(now.minute)), MinuteHand),
      HandCmd(t, d, DegreesToTrigAngle(SecondDegrees(now.second)), SecondHand),
      FillCircle(d.center, CenterDotRadius, White) ]
  }

  /** With the SDK's bounded tables on a face of non-negative radius, each
      hand is a line from the center that ends within the face radius (in
      each coordinate), the thickest hand first; the dot covers the center. */
  lemma {:induction false} HandsWithinRadius(t: TrigTable, d: Dims, now: Time)
    requires Bounded(t) && ValidTime(now) && d.radius >= 0
    ensures var h := HandsCmds(t, d, now);
      && |h| == 4
      && (forall k :: 0 <= k < 3 ==>
            && h[k].Line? && h[k].from == d.center
            && Abs(h[k].to.x - d.center.x) <= d.radius && Abs(h[k].to.y - d.center.y) <= d.radius)
      && h[0].strokeWidth > h[1].strokeWidth > h[2].strokeWidth
      && h[3] == FillCircle(d.center, CenterDotRadius, White)
  {
    var h := HandsCmds(t, d, now);
    HandLengthsOrdered(d.radius);
    forall k | 0 <= k < 3
      ensures && h[k].Line? && h[k].from == d.center
              && Abs(h[k].to.x - d.center.x) <= d.radius && Abs(h[k].to.y - d.center.y) <= d.radius
    {
      var hand := if k == 0 then HourHand else if k == 1 then MinuteHand else SecondHand;
      var angle := if k == 0 then DegreesToTrigAngle(HourDegrees(now.hour, now.minute))
                   else if k == 1 then DegreesToTrigAngle(MinuteDegrees(now.minute))
                   else DegreesToTrigAngle(SecondDegrees(now.second));
      assert h[k] == HandCmd(t, d, angle, hand);
      CircleWithinDistance(t, d.center, angle, HandLength(d.radius, hand));
    }
  }

  /** At 03:00:00 on the 180 by 180 face (radius 89) the hands are 44, 66
      and 75 long; with a table exact at 0 and 90 degrees the hour hand
      ends at (134, 90) and the minute and second hands straight up. */
  lemma {:induction false} HandsAtThree(t: TrigTable)
    requires t.sin(0) == 0 && t.cos(0) == TrigMaxRatio
    requires t.sin(TrigMaxAngle / 4) == TrigMaxRatio && t.cos(TrigMaxAngle / 4) == 0
    ensures var h := HandsCmds(t, Dims(Point(90, 90), 89, 89, 89), Time(3, 0, 0));
      && h[0].to == Point(134, 90)
      && h[1].to == Point(90, 24)
      && h[2].to == Point(90, 15)
  {
    var c := Point(90, 90);
    QuarterTurns();
    DegreesToTrigAngleRange(0);
    assert HandLength(89, HourHand) == 44;
    assert HandLength(89, MinuteHand) == 66;
    assert HandLength(89, SecondHand) == 75;
    AxisPoints(t, c, TrigMaxAngle / 4, 44, 44);
    AxisPoints(t, c, 0, 66, 66);
    AxisPoints(t, c, 0, 75, 75);
    ProjectionAxes(t, c, TrigMaxAngle / 4, 44, 44);
    ProjectionAxes(t, c, 0, 66, 66);
    ProjectionAxes(t, c, 0, 75, 75);
  }

  /** Everything one call of `update_proc` draws for a layer with these
      bounds at time `now`. */
  function FrameCmds(t: TrigTable, bounds: Rect, now: Time, measure: string -> Size): seq<Cmd>
    requires ValidTime(now)
  {
    var d := Dimensions(bounds);
    [FaceCmd(d)] + MarkersUpTo(t, d, measure, HourMarkerCount) + HandsCmds(t, d, now)
  }

  /** The fixed order of a redraw: 21 commands, the face outline first, then
      the 16 marker lines and labels, then the three hands and the dot. */
  lemma {:induction false} FrameOrder(t: TrigTable, bounds: Rect, now: Time, measure: string -> Size)
    requires ValidTime(now)
    ensures var f, d := FrameCmds(t, bounds, now, measure), Dimensions(bounds);
      && |f| == 21
      && f[0] == FaceCmd(d)
      && f[1..17] == MarkersUpTo(t, d, measure, HourMarkerCount)
      && f[17..] == HandsCmds(t, d, now)
  {
    var d := Dimensions(bounds);
    MarkersUpToLength(t, d, measure, HourMarkerCount);
  }

  /** Regrouping appended command lists. */
  lemma AppendAssoc<T>(a: seq<T>, b: seq<T>, c: seq<T>, e: seq<T>)
    ensures a + b + c + e == a + (b + c + e)
  {
  }

  /** Four single appends are one append of four. */
  lemma AppendFour<T>(a: seq<T>, x: T, y: T, z: T, w: T)
    ensures a + [x] + [y] + [z] + [w] == a + [x, y, z, w]
  {
  }

  /** The graphics context: the commands drawn on it so far. */
  class Canvas {
    var commands: seq<Cmd>

    constructor ()
      ensures commands == []
    {
      commands := [];
    }

    /** `graphics_draw_round_rect`. */
    method DrawRoundRect(rect: Rect, cornerRadius: int, strokeWidth: int, stroke: Color)
      modifies this
      ensures commands == old(commands) + [RoundRect(rect, cornerRadius, strokeWidth, stroke)]
    {
      commands := commands + [RoundRect(rect, cornerRadius, strokeWidth, stroke)];
    }

    /** `graphics_draw_line`. */
    method DrawLine(from: Point, to: Point, strokeWidth: int, stroke: Color)
      modifies this
      ensures commands == old(commands) + [Line(from, to, strokeWidth, stroke)]
    {
      commands := commands + [Line(from, to, strokeWidth, stroke)];
    }

    /** `graphics_draw_text`. */
    method DrawText(text: string, font: Font, box: Rect, color: Color)
      modifies this
      ensures commands == old(commands) + [Text(text, font, box, color)]
    {
      commands := commands + [Text(text, font, box, color)];
    }

    /** `graphics_fill_circle`. */
    method FillCircle(center: Point, radius: int, fill: Color)
      modifies this
      ensures commands == old(commands) + [Cmd.FillCircle(center, radius, fill)]
    {
      commands := commands + [Cmd.FillCircle(center, radius, fill)];
    }
  }

  /** The file's geometry globals and the drawing routines that use them. */
  class WatchFace {
    var center: Point
    var wRadius: int
    var hRadius: int
    var radius: int

    /** Static storage starts zeroed. */
    constructor ()
      ensures Current() == Dims(Point(0, 0), 0, 0, 0)
    {
      center, wRadius, hRadius, radius := Point(0, 0), 0, 0, 0;
    }

    /** The four globals as one value. */
    function Current(): Dims
      reads this
    {
      Dims(center, wRadius, hRadius, radius)
    }

    /** `calculate_dimensions`. */
    method CalculateDimensions(bounds: Rect)
      modifies this
      ensures Current() == Dimensions(bounds)
      ensures bounds.w >= 0 && bounds.h >= 0 ==> 0 <= radius == Min(wRadius, hRadius)
    {
      center := CenterPoint(bounds);
      wRadius := BorderRadius(bounds.w);
      hRadius := BorderRadius(bounds.h);
      radius := if wRadius < hRadius then wRadius else hRadius;
      if bounds.w >= 0 && bounds.h >= 0 {
        DimensionsFitBounds(bounds);
      }
    }

    /** `draw_clock_face`. */
    method DrawClockFace(ctx: Canvas)
      modifies ctx
      ensures ctx.commands == old(ctx.commands) + [FaceCmd(Current())]
    {
      var face := Rect(center.x - wRadius, center.y - hRadius, 2 * wRadius, 2 * hRadius);
      ctx.DrawRoundRect(face, ClockFaceCornerRadius, ClockFaceStrokeWidth, White);
    }

    /** `draw_hour_marker`. */
    method DrawHourMarker(ctx: Canvas, t: TrigTable, hourIndex: int)
      requires 0 <= hourIndex < HourMarkerCount
      modifies ctx
      ensures ctx.commands == old(ctx.commands) + [MarkerCmd(t, Current(), hourIndex)]
    {
      var angleDegrees := hourIndex * DegreesPerHour;
      var angle := DegreesToTrigAngle(angleDegrees);
      var isMajor := IsMajorMarker(hourIndex);
      var markerLength := if isMajor then MajorMarkerLength else MinorMarkerLength;
      var markerWidth := if isMajor then MajorMarkerWidth else MinorMarkerWidth;
      var outer := PointOnEllipse(t, center, angle, wRadius, hRadius);
      var inner := PointOnEllipse(t, center, angle, wRadius - markerLength, hRadius - markerLength);
      ctx.DrawLine(outer, inner, markerWidth, White);
    }

    /** `draw_hour_number`. */
    method DrawHourNumber(ctx: Canvas, t: TrigTable, hourIndex: int, measure: string -> Size)
      requires 0 <= hourIndex < HourMarkerCount
      modifies ctx
      ensures ctx.commands == old(ctx.commands) + NumberCmds(t, Current(), hourIndex, measure)
    {
      if !IsMajorMarker(hourIndex) {
        return;
      }
      var angle := DegreesToTrigAngle(hourIndex * DegreesPerHour);
      var numberDistance := radius - MajorMarkerLength - NumberOffsetFromMarker;
      var numberPos := PointOnCircle(t, center, angle, numberDistance);
      var numberBuffer := BufferText(DisplayHour(hourIndex), NumberBufferSize);
      var textSize := measure(numberBuffer);
      var textRect := Rect(numberPos.x - TruncDiv(textSize.w, 2), numberPos.y - TruncDiv(textSize.h, 2),
                           textSize.w, textSize.h);
      ctx.DrawText(numberBuffer, Gothic18Bold, textRect, White);
    }

    /** `draw_hour_markers`: for each of the twelve markers, its line and then its label. */
    method DrawHourMarkers(ctx: Canvas, t: TrigTable, measure: string -> Size)
      modifies ctx
      ensures ctx.commands == old(ctx.commands) + MarkersUpTo(t, Current(), measure, HourMarkerCount)
    {
      var i := 0;
      while i < HourMarkerCount
        invariant 0 <= i <= HourMarkerCount
        invariant ctx.commands == old(ctx.commands) + MarkersUpTo(t, Current(), measure, i)
      {
        DrawHourMarker(ctx, t, i);
        DrawHourNumber(ctx, t, i, measure);
        MarkersStep(t, Current(), measure, old(ctx.commands), i);
        i := i + 1;
      }
    }

    /** `draw_hand`: a line from the center toward `angle`, as long as the
        hand's share of the face radius. */
    method DrawHand(ctx: Canvas, t: TrigTable, angle: int, hand: Hand)
      modifies ctx
      ensures ctx.commands == old(ctx.commands) + [HandCmd(t, Current(), angle, hand)]
    {
      var handEnd := PointOnCircle(t, center, angle, HandLength(radius, hand));
      ctx.DrawLine(center, handEnd, HandWidth(hand), HandColor(hand));
    }

    /** `draw_clock_hands`. */
    method DrawClockHands(ctx: Canvas, t: TrigTable, now: Time)
      requires ValidTime(now)
      modifies ctx
      ensures ctx.commands == old(ctx.commands) + HandsCmds(t, Current(), now)
    {
      var hourDegrees := (now.hour % 12) * DegreesPerHour + now.minute / 2;
      var minuteDegrees := now.minute * DegreesPerMinute;
      var secondDegrees := now.second * DegreesPerSecond;
      var hourAngle := DegreesToTrigAngle(hourDegrees);
      var minuteAngle := DegreesToTrigAngle(minuteDegrees);
      var secondAngle := DegreesToTrigAngle(secondDegrees);
      DrawHand(ctx, t, hourAngle, HourHand);
      DrawHand(ctx, t, minuteAngle, MinuteHand);
      DrawHand(ctx, t, secondAngle, SecondHand);
      ctx.FillCircle(center, CenterDotRadius, White);
      AppendFour(old(ctx.commands), HandCmd(t, Current(), hourAngle, HourHand), HandCmd(t, Current(), minuteAngle, MinuteHand),
                 HandCmd(t, Current(), secondAngle, SecondHand), Cmd.FillCircle(center, CenterDotRadius, White));
    }

    /** `update_proc`: recompute the geometry from the layer bounds, then draw
        the face, the markers and labels, and the hands for the current time. */
    method UpdateProc(ctx: Canvas, t: TrigTable, bounds: Rect, now: Time, measure: string -> Size)
      requires ValidTime(now)
      modifies this, ctx
      ensures Current() == Dimensions(bounds)
      ensures ctx.commands == old(ctx.commands) + FrameCmds(t, bounds, now, measure)
    {
      CalculateDimensions(bounds);
      ghost var d := Current();
      ghost var face, markers, hands := [FaceCmd(d)], MarkersUpTo(t, d, measure, HourMarkerCount), HandsCmds(t, d, now);
      DrawClockFace(ctx);
      DrawHourMarkers(ctx, t, measure);
      DrawClockHands(ctx, t, now);
      AppendAssoc(old(ctx.commands), face, markers, hands);
    }
  }
}
