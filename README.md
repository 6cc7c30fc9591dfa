# Analog watchface geometry, modelled in Dafny

This project models the drawing core of a Pebble analog watchface, `src/c/simple-watchface.c`.
Each redraw of the canvas layer does the following:

- It recomputes the face geometry from the layer bounds: the center, a horizontal and a vertical radius one percent inside the layer, and the overall radius, which is the smaller of the two.
- It draws a rounded-rectangle outline.
- It draws twelve hour markers. The markers at 12, 3, 6 and 9 are long and thick and carry the labels "12", "3", "6" and "9".
- It draws the hour, minute and second hands, then a center dot.

All positions come from the SDK's fixed-point trigonometry: a full turn is `TRIG_MAX_ANGLE` units and sine and cosine are scaled by `TRIG_MAX_RATIO`.

Modules:

- `Arith`: C's truncating integer division (`TruncDiv`) and its monotonicity and bounds.
- `Trig`: `TRIG_MAX_ANGLE` (0x10000), `TRIG_MAX_RATIO` (0xffff), the lookup tables as a parameter (`TrigTable`), and `degrees_to_trig_angle`.
- `Geometry`: points, sizes and rectangles, and the circle and ellipse projections `get_point_on_circle` and `get_point_on_ellipse`. It also holds the text centering of `draw_hour_number`.
- `Layout`: marker classification, marker angles, display hours, and the text `snprintf` leaves in the three-byte label buffer.
- `Hands`: the hour, minute and second angles and the hand lengths.
- `Render`: the drawing commands, the graphics context as the class `Canvas` holding the list of commands issued so far, and the file's globals as the class `WatchFace`. `WatchFace`'s methods mirror `calculate_dimensions`, the `draw_*` routines and `update_proc`.

Each method is proved against a specification function of the commands it appends:

- `FaceCmd` for the face outline;
- `MarkerCmd` and `NumberCmds` for one marker and its label;
- `MarkersUpTo` for the marker loop;
- `HandsCmds` for the hands and the dot;
- `FrameCmds` for a whole redraw.

The lemmas state what a redraw looks like: its order, its labels, where the hands end, and the geometry of the face.

A 180 × 180 layer gives center (90, 90) and radius 89: half of 180 is 90, and 90 × 0.99 truncates to 89 (`Render.Dimensions180`). The source projects markers onto an ellipse only; it has no projection onto the rounded-rectangle outline, no sixty-marker face and no date display.

## Model

| member | source | states |
|---|---|---|
| Arith.TruncDiv | src/c/simple-watchface.c:61-62 | C's `/` for a positive divisor: the quotient has the sign of the dividend |
| Arith.TruncDivBracket | src/c/simple-watchface.c:61-62 | the truncated quotient's magnitude is the floor of \|a\| / b |
| Arith.TruncDivMonotone | src/c/simple-watchface.c:53 | truncating division by a positive divisor preserves order |
| Arith.TruncDivStrict | src/c/simple-watchface.c:53 | dividends at least two divisors apart give strictly ordered quotients |
| Arith.TruncDivBound | src/c/simple-watchface.c:61-62 | a dividend of magnitude at most k·b gives a quotient of magnitude at most k |
| Arith.TruncDivExact | src/c/simple-watchface.c:61-62 | exact multiples divide exactly, whatever their sign |
| Trig.DegreesToTrigAngle | src/c/simple-watchface.c:52-54 | `degrees_to_trig_angle` with C truncation; its range, monotonicity and quarter turns are the lemmas below |
| Trig.DegreesToTrigAngleRange | src/c/simple-watchface.c:52-54 | non-negative degrees give a non-negative angle; [0, 360) maps into [0, TRIG_MAX_ANGLE); whole turns map to whole multiples of TRIG_MAX_ANGLE |
| Trig.DegreesToTrigAngleStrictlyMonotone | src/c/simple-watchface.c:52-54 | the conversion is strictly increasing on the int16 range where the product does not overflow |
| Trig.QuarterTurns | src/c/simple-watchface.c:52-54 | 0, 90, 180 and 270 degrees convert to 0 and to a quarter, a half and three quarters of TRIG_MAX_ANGLE |
| Geometry.Scaled | src/c/simple-watchface.c:61-62 | the truncated `lookup * distance / TRIG_MAX_RATIO`; see ScaledExact, ScaledBound and ScaledSquare |
| Geometry.PointOnCircle | src/c/simple-watchface.c:59-64 | `get_point_on_circle`, x to the right and y downward; see ProjectionAxes, CircleWithinDistance, CircleMirror and CircleWithinRadius |
| Geometry.PointOnEllipse | src/c/simple-watchface.c:69-74 | `get_point_on_ellipse`; see ProjectionAxes, EllipseWithinBox and AxisPoints |
| Geometry.CenteredRect | src/c/simple-watchface.c:158-163 | `text_rect`; see CenteredRectMiddle |
| Geometry.ScaledExact | src/c/simple-watchface.c:61-62 | a zero lookup or distance gives offset 0; a full-scale lookup gives the whole distance; negating the lookup negates the offset |
| Geometry.ProjectionAxes | src/c/simple-watchface.c:59-74 | the ellipse projection with equal radii is the circle projection; zero sine keeps x at the center, zero cosine keeps y; distance 0 is the center |
| Geometry.ScaledBound | src/c/simple-watchface.c:61-62 | a lookup within ±TRIG_MAX_RATIO scales a non-negative distance to at most that distance |
| Geometry.CircleWithinDistance | src/c/simple-watchface.c:59-64 | with bounded tables the circle point lies within distance of the center in x and in y |
| Geometry.EllipseWithinBox | src/c/simple-watchface.c:69-74 | with bounded tables the ellipse point lies within wRadius horizontally and hRadius vertically |
| Geometry.AxisPoints | src/c/simple-watchface.c:69-74 | twelve o'clock projects to (cx, cy − h); three o'clock projects to (cx + w, cy) |
| Geometry.CircleMirror | src/c/simple-watchface.c:59-64 | angles with opposite sine and equal cosine give points mirrored about the vertical through the center |
| Geometry.CircleWithinRadius | src/c/simple-watchface.c:59-64 | for a distance up to 181 and table entries on the unit circle up to integer rounding (sin² + cos² ≤ TRIG_MAX_RATIO² + 2·TRIG_MAX_RATIO), the point's squared Euclidean distance from the center is at most distance² |
| Geometry.CenteredRectMiddle | src/c/simple-watchface.c:158-163 | the text box has the measured size, and its middle is the label point up to half a unit |
| Layout.IsMajorMarker | src/c/simple-watchface.c:79-81 | `is_major_marker`; see MajorMarkers |
| Layout.DisplayHour | src/c/simple-watchface.c:86-88 | `get_display_hour`; see DisplayHourBijective |
| Layout.BufferText | src/c/simple-watchface.c:144-145 | the text `snprintf` leaves in a buffer; see BufferTextTruncates |
| Layout.HourLabel | src/c/simple-watchface.c:144-145 | the label of a marker; see HourLabelFits and MajorLabels |
| Layout.MajorMarkers | src/c/simple-watchface.c:79-81 | among markers 0..11, `is_major_marker` holds exactly at 0, 3, 6 and 9 |
| Layout.DisplayHourBijective | src/c/simple-watchface.c:86-88 | the display hour is in 1..12 and congruent to the index mod 12; different markers get different hours; every hour 1..12 belongs to one marker |
| Layout.MarkerAnglesDistinct | src/c/simple-watchface.c:114-115 | marker angles are strictly increasing and lie within one turn, in degrees and in SDK units |
| Layout.DecimalStringDigits | src/c/simple-watchface.c:145 | `%d` of a natural number is one or more digits, a single digit exactly below 10, with no leading zero |
| Layout.ParseDecimalString | src/c/simple-watchface.c:145 | the printed digits read back as the number |
| Layout.BufferTextTruncates | src/c/simple-watchface.c:144-145 | `snprintf` leaves a prefix of the formatted number of at most size − 1 characters, which is the whole number exactly when it fits |
| Layout.HourLabelFits | src/c/simple-watchface.c:144-145 | every display hour fits the 3-byte buffer uncut, as 1 or 2 digits that read back as the hour |
| Layout.MajorLabels | src/c/simple-watchface.c:144-145 | the labels of markers 0, 3, 6 and 9 are "12", "3", "6" and "9" |
| Hands.HourDegrees | src/c/simple-watchface.c:203-204 | `hour_degrees`; see HourDegreesHalfElapsed, HourDegreesMonotone, HourDegreesContinuous and HandsOnMarkers |
| Hands.MinuteDegrees | src/c/simple-watchface.c:205 | `minute_degrees`; see MinuteSecondDegreesExact and HandsOnMarkers |
| Hands.SecondDegrees | src/c/simple-watchface.c:206 | `second_degrees`; see MinuteSecondDegreesExact and HandsOnMarkers |
| Hands.HandLength | src/c/simple-watchface.c:191 | `(int)(s_radius * length_ratio)`; see HandLengthsOrdered |
| Hands.HourDegreesHalfElapsed | src/c/simple-watchface.c:203-204 | hour degrees lie in [0, 359] and equal half the minutes since twelve o'clock, rounded down |
| Hands.HourDegreesMonotone | src/c/simple-watchface.c:203-204 | a later time in the same twelve-hour cycle never gives a smaller hour angle |
| Hands.HourDegreesContinuous | src/c/simple-watchface.c:203-204 | from one minute to the next the hour hand moves forward 0 or 1 degree mod 360, including across twelve o'clock |
| Hands.HourDegreesTwelveHourCycle | src/c/simple-watchface.c:203 | hour h and hour h + 12 give the same angle |
| Hands.HourDegreesExamples | src/c/simple-watchface.c:203-204 | 03:00 → 90, 03:30 → 105, 15:00 → 90, 00:00 → 0, 23:59 → 359 |
| Hands.MinuteSecondDegreesExact | src/c/simple-watchface.c:205-206 | minute and second angles are multiples of 6 from which the value reads back; they lie in [0, 354] for 0..59, and a leap second gives 360 |
| Hands.HandsOnMarkers | src/c/simple-watchface.c:203-206 | the hour hand lies from its hour's marker up to the next, on the marker only in the hour's first two minutes; the minute and second hands are on a marker every five units |
| Hands.MinuteSecondExamples | src/c/simple-watchface.c:205-206 | minute 15 → 90, minute 45 → 270, second 0 → 0, second 30 → 180 |
| Hands.HandLengthsOrdered | src/c/simple-watchface.c:190-215 | on a face of non-negative radius, 0 ≤ hour hand ≤ minute hand ≤ second hand ≤ radius |
| Render.CenterPoint | src/c/simple-watchface.c:227 | `grect_center_point`; see CenterPointMiddle |
| Render.BorderRadius | src/c/simple-watchface.c:229-230 | one radius one percent inside half the extent; see BorderRadiusBounds |
| Render.Dimensions | src/c/simple-watchface.c:225-232 | the globals `calculate_dimensions` sets; see DimensionsFitBounds and Dimensions180 |
| Render.FaceRect | src/c/simple-watchface.c:98-103 | `clock_face`; see FaceRectCentered |
| Render.FaceCmd | src/c/simple-watchface.c:97-108 | the outline `draw_clock_face` draws; see FaceRectCentered and FrameOrder |
| Render.MarkerCmd | src/c/simple-watchface.c:113-127 | the line `draw_hour_marker` draws; see MarkerInsideFace |
| Render.NumberCmds | src/c/simple-watchface.c:132-175 | what `draw_hour_number` draws; see NumberCmdsCount and NumberPlacement |
| Render.MarkersUpTo | src/c/simple-watchface.c:180-185 | the first n iterations of `draw_hour_markers`; see MarkersUpToLength, MarkerAt, MarkersLayout and MarkerLabels |
| Render.HandCmd | src/c/simple-watchface.c:190-196 | the line `draw_hand` draws; see HandsWithinRadius |
| Render.HandsCmds | src/c/simple-watchface.c:201-220 | what `draw_clock_hands` draws; see HandsWithinRadius and HandsAtThree |
| Render.FrameCmds | src/c/simple-watchface.c:241-252 | what `update_proc` draws; see FrameOrder |
| Render.CenterPointMiddle | src/c/simple-watchface.c:227 | the center is the middle of the layer, up to half a unit for odd sizes |
| Render.BorderRadiusBounds | src/c/simple-watchface.c:229-230 | a radius is non-negative and at most half the extent, strictly less once the extent is at least 2 |
| Render.FaceRectCentered | src/c/simple-watchface.c:98-103 | the face outline is 2w by 2h and centered on the center |
| Render.DimensionsFitBounds | src/c/simple-watchface.c:225-232 | s_radius is the minimum of the two radii, all are non-negative, and the face outline lies inside the layer |
| Render.Dimensions180 | src/c/simple-watchface.c:225-232 | a 180 by 180 layer gives center (90, 90) and radii 89 |
| Render.MarkerInsideFace | src/c/simple-watchface.c:113-127 | each marker line runs from the face ellipse at its angle to the ellipse 15 (at 0, 3, 6, 9) or 8 units smaller, both ends inside the face box; the markers at 0, 3, 6 and 9 are 3 wide and the others 1 |
| Render.NumberCmdsCount | src/c/simple-watchface.c:132-135 | `draw_hour_number` draws one text for markers 0, 3, 6 and 9, and nothing for the others |
| Render.NumberPlacement | src/c/simple-watchface.c:137-175 | a label is the display hour in decimal, boxed at the measured size around the point NumberDistance from the center at the marker's angle, which lies within radius − 25 |
| Render.MarkersUpToLength | src/c/simple-watchface.c:180-185 | after n iterations the loop has drawn n lines plus one label per major marker among them |
| Render.MarkerAt | src/c/simple-watchface.c:180-185 | marker i's line is at position i + (i + 2) / 3, and a major marker's label comes right after it |
| Render.MarkersLayout | src/c/simple-watchface.c:180-185 | the same positions hold for all twelve markers of a full loop |
| Render.LabelAt | src/c/simple-watchface.c:180-185 | the command after a major marker's line is its label text |
| Render.MarkerLabels | src/c/simple-watchface.c:180-185 | the full loop emits 16 commands, and its texts at 1, 5, 9 and 13 are "12", "3", "6" and "9" |
| Render.HandsWithinRadius | src/c/simple-watchface.c:190-220 | with bounded tables the three hands start at the center and end within radius in x and in y of the center; their widths decrease (5, 3, 1); the center dot comes last |
| Render.HandsAtThree | src/c/simple-watchface.c:201-215 | at 03:00:00 on the 180 × 180 face, with exact quarter-turn table entries, the hands end at (134, 90), (90, 24) and (90, 15) |
| Render.FrameOrder | src/c/simple-watchface.c:241-252 | a redraw is 21 commands: the face outline, then the 16 marker commands, then the three hands and the dot |
| Render.Canvas.constructor | src/c/simple-watchface.c:241 | a fresh context holds no commands |
| Render.Canvas.DrawRoundRect | src/c/simple-watchface.c:105-107 | appends one rounded rectangle with the stroke state in force |
| Render.Canvas.DrawLine | src/c/simple-watchface.c:124-126 | appends one line with the stroke state in force |
| Render.Canvas.DrawText | src/c/simple-watchface.c:165-174 | appends one text with its font, box and color |
| Render.Canvas.FillCircle | src/c/simple-watchface.c:218-219 | appends one filled circle |
| Render.WatchFace.constructor | src/c/simple-watchface.c:40-43 | the globals start zeroed |
| Render.WatchFace.CalculateDimensions | src/c/simple-watchface.c:225-232 | the globals become Dimensions(bounds); for a non-negative size, s_radius = min(s_w_radius, s_h_radius) ≥ 0 |
| Render.WatchFace.DrawClockFace | src/c/simple-watchface.c:97-108 | appends exactly the face outline for the current globals |
| Render.WatchFace.DrawHourMarker | src/c/simple-watchface.c:113-127 | appends exactly marker i's line |
| Render.WatchFace.DrawHourNumber | src/c/simple-watchface.c:132-175 | appends marker i's label, or nothing for a minor marker |
| Render.WatchFace.DrawHourMarkers | src/c/simple-watchface.c:180-185 | appends the twelve markers' lines and labels in loop order |
| Render.WatchFace.DrawHand | src/c/simple-watchface.c:190-196 | appends one hand line from the center |
| Render.WatchFace.DrawClockHands | src/c/simple-watchface.c:201-220 | appends the hour, minute and second hands, then the center dot |
| Render.WatchFace.UpdateProc | src/c/simple-watchface.c:241-252 | recomputes the globals from the bounds and appends exactly one redraw's commands, in order |

## Left out

- The window and layer lifecycle, the tick subscription and the event loop (`tick_handler`, `main_window_load`, `main_window_unload`, `init`, `deinit`, `main`, src/c/simple-watchface.c:261-318) are not modelled. They are platform plumbing with no logic of their own.
- `time()` and `localtime()` are not modelled. The current time is a `Time` parameter whose fields lie in the `struct tm` ranges: hour 0..23, minute 0..59, second 0..60.
- `sin_lookup` and `cos_lookup` are a `TrigTable` parameter. Properties that need bounds on the table assume `Bounded`, or state the entries they use.
- Text measurement (`fonts_get_system_font` and `graphics_text_layout_get_content_size`) is a `measure: string -> Size` parameter. The font, the 30 × 30 layout box, the overflow mode and the alignment are fixed in the source, so only the text varies.
- Colors, stroke widths and the font are recorded as tags on each drawing command, not as separate state changes. The `graphics_context_set_*` calls, including the stray fill-color call in `update_proc`, are folded into the commands that use them.
- Single-precision float scaling is modelled as exact integer arithmetic truncated toward zero:
  - the 0.99 border factor as `w / 2 * 99 / 100`;
  - the hand ratios 0.5, 0.75 and 0.85 as percentages;
  - `min * 0.5f` as `min / 2`.
  For `int16` layer sizes these give the same integers as the float expressions. This is argued, not proved, because the model has no floating point.
- Integer widths are not modelled, except that `DegreesToTrigAngle` requires degrees in [-32768, 32767], where `TRIG_MAX_ANGLE * degrees` fits in 32 bits. `GPoint` and `GSize` coordinates are `int16` in the SDK, and the model does not wrap them.
- `grect_center_point` is modelled as origin plus half the size, halved with C truncation. It is an SDK function.
- The draw methods require `0 <= hourIndex < 12`, the range the marker loop passes.
- Geometry.CircleWithinRadius: bounds the Euclidean distance of a circle point from above only, and only for distances up to 181 (twice 181² is below TRIG_MAX_RATIO, so rounding error in the tables cannot push the point out; an `int16` layer half-size times 0.99 can exceed 181 only for layers far larger than any Pebble screen). No lower bound within one unit is proved, since that depends on the exact values of the SDK tables.
