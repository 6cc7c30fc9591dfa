/** The angles and lengths of the three clock hands (`draw_clock_hands`, `draw_hand`). */
module Hands {
  import opened Arith
  import opened Layout

  const DegreesPerMinute: int := 6
  const DegreesPerSecond: int := 6

  /** The fields of C's `struct tm` that the hands read. */
  datatype Time = Time(hour: int, minute: int, second: int)

  /** The ranges C gives these fields; `tm_sec` may be 60 on a leap second. */
  predicate ValidTime(t: Time)
  {
    0 <= t.hour <= 23 && 0 <= t.minute <= 59 && 0 <= t.second <= 60
  }

  /** `hour_degrees`: `(tm_hour % 12) * 30 + (int)(tm_min * 0.5f)`. For a
      non-negative minute count the float product is exact and the cast
      truncates, so the second term is minute / 2. */
  function HourDegrees(hour: int, minute: int): int
    requires 0 <= hour <= 23 && 0 <= minute <= 59
  {
    (hour % 12) * DegreesPerHour + minute / 2
  }

  /** Minutes elapsed since the last twelve o'clock. */
  function ElapsedMinutes(hour: int, minute: int): (m: int)
    requires 0 <= hour <= 23 && 0 <= minute <= 59
    ensures 0 <= m < 720
  {
    (hour % 12) * 60 + minute
  }

  /** The hour hand turns half a degree per elapsed minute, rounded down. */
  lemma HourDegreesHalfElapsed(hour: int, minute: int)
    requires 0 <= hour <= 23 && 0 <= minute <= 59
    ensures 0 <= HourDegrees(hour, minute) <= 359
    ensures HourDegrees(hour, minute) == ElapsedMinutes(hour, minute) / 2
  {
  }

  /** Later in the same twelve-hour cycle never means an earlier hour angle;
      in particular the angle does not decrease with the minute within an hour. */
  lemma {:induction false} HourDegreesMonotone(hour: int, minute: int, hour': int, minute': int)
    requires 0 <= hour <= 23 && 0 <= minute <= 59
    requires 0 <= hour' <= 23 && 0 <= minute' <= 59
    requires ElapsedMinutes(hour, minute) <= ElapsedMinutes(hour', minute')
    ensures HourDegrees(hour, minute) <= HourDegrees(hour', minute')
  {
    HourDegreesHalfElapsed(hour, minute);
    HourDegreesHalfElapsed(hour', minute');
  }

  /** The time one minute later, on a 24-hour clock. */
  function NextMinute(hour: int, minute: int): (next: (int, int))
    requires 0 <= hour <= 23 && 0 <= minute <= 59
    ensures 0 <= next.0 <= 23 && 0 <= next.1 <= 59
    ensures (next.0 * 60 + next.1) % 1440 == (hour * 60 + minute + 1) % 1440
  {
    if minute < 59 then (hour, minute + 1)
    else if hour < 23 then (hour + 1, 0)
    else (0, 0)
  }

  /** One minute later the twelve-hour clock has advanced by one minute,
      wrapping at twelve o'clock. */
  lemma {:induction false} ElapsedMinutesNext(hour: int, minute: int)
    requires 0 <= hour <= 23 && 0 <= minute <= 59
    ensures var next := NextMinute(hour, minute);
      ElapsedMinutes(next.0, next.1) == if ElapsedMinutes(hour, minute) == 719 then 0 else ElapsedMinutes(hour, minute) + 1
  {
    if minute == 59 && hour < 23 {
      assert (hour + 1) % 12 == (hour % 12 + 1) % 12;
    }
  }

  /** The hour hand is continuous: from one minute to the next, including
      across the hour and across twelve o'clock, it moves forward by 0 or 1
      degree around the circle. */
  lemma {:induction false} HourDegreesContinuous(hour: int, minute: int)
    requires 0 <= hour <= 23 && 0 <= minute <= 59
    ensures var next := NextMinute(hour, minute);
      var step := (HourDegrees(next.0, next.1) - HourDegrees(hour, minute)) % 360;
      step == 0 || step == 1
  {
    var next := NextMinute(hour, minute);
    HourDegreesHalfElapsed(hour, minute);
    HourDegreesHalfElapsed(next.0, next.1);
    ElapsedMinutesNext(hour, minute);
    var e := ElapsedMinutes(hour, minute);
    var delta := HourDegrees(next.0, next.1) - HourDegrees(hour, minute);
    if e == 719 {
      assert delta == -359;
    } else {
      assert delta == (e + 1) / 2 - e / 2;
      assert delta == 0 || delta == 1;
    }
  }

  /** A 24-hour clock hour and the same hour twelve hours later put the hand
      in the same place. */
  lemma HourDegreesTwelveHourCycle(hour: int, minute: int)
    requires 0 <= hour < 12 && 0 <= minute <= 59
    ensures HourDegrees(hour + 12, minute) == HourDegrees(hour, minute)
  {
  }

  lemma HourDegreesExamples()
    ensures HourDegrees(3, 0) == 90 && HourDegrees(3, 30) == 105
    ensures HourDegrees(15, 0) == 90 && HourDegrees(0, 0) == 0 && HourDegrees(23, 59) == 359
  {
  }

  /** `minute_degrees`: six degrees a minute; the minute reads back from the angle. */
  function MinuteDegrees(minute: int): int
  {
    minute * DegreesPerMinute
  }

  /** `second_degrees`: six degrees a second; the second reads back from the
      angle. A leap second 60 points the hand at 360 degrees, i.e. at twelve. */
  function SecondDegrees(second: int): int
  {
    second * DegreesPerSecond
  }

  /** The minute and second hands sit on whole six-degree steps from which
      the minute or second reads back, within one turn. */
  lemma MinuteSecondDegreesExact(minute: int, second: int)
    ensures MinuteDegrees(minute) % DegreesPerMinute == 0 && MinuteDegrees(minute) / DegreesPerMinute == minute
    ensures SecondDegrees(second) % DegreesPerSecond == 0 && SecondDegrees(second) / DegreesPerSecond == second
    ensures 0 <= minute <= 59 ==> 0 <= MinuteDegrees(minute) <= 354
    ensures 0 <= second <= 59 ==> 0 <= SecondDegrees(second) <= 354
    ensures second == 60 ==> SecondDegrees(second) == 360
  {
  }

  /** The hour hand lies between the marker of its hour and the next one,
      exactly on the marker during the first two minutes of the hour (half
      a degree a minute, truncated); the minute and second hands are on a
      marker every five minutes or seconds. */
  lemma HandsOnMarkers(hour: int, minute: int, second: int)
    requires 0 <= hour <= 23 && 0 <= minute <= 59 && 0 <= second <= 60
    ensures MarkerDegrees(hour % 12) <= HourDegrees(hour, minute) < MarkerDegrees(hour % 12 + 1)
    ensures minute <= 1 <==> HourDegrees(hour, minute) == MarkerDegrees(hour % 12)
    ensures minute % 5 == 0 ==> MinuteDegrees(minute) == MarkerDegrees(minute / 5)
    ensures second % 5 == 0 ==> SecondDegrees(second) == MarkerDegrees(second / 5)
  {
  }

  lemma MinuteSecondExamples()
    ensures MinuteDegrees(15) == 90 && MinuteDegrees(45) == 270
    ensures SecondDegrees(0) == 0 && SecondDegrees(30) == 180
  {
  }

  /** The three hands with their fixed length ratios (in percent of the face radius). */
  datatype Hand = HourHand | MinuteHand | SecondHand

  /** HOUR_HAND_LENGTH_RATIO, MINUTE_HAND_LENGTH_RATIO, SECOND_HAND_LENGTH_RATIO as percentages. */
  function LengthPercent(hand: Hand): int
  {
    match hand
    case HourHand => 50
    case MinuteHand => 75
    case SecondHand => 85
  }

  /** HOUR_HAND_WIDTH, MINUTE_HAND_WIDTH, SECOND_HAND_WIDTH. */
  function HandWidth(hand: Hand): int
  {
    match hand
    case HourHand => 5
    case MinuteHand => 3
    case SecondHand => 1
  }

  /** `(int)(s_radius * length_ratio)`: the radius scaled by the hand's ratio,
      truncated toward zero. */
  function HandLength(radius: int, hand: Hand): int
  {
    TruncDiv(radius * LengthPercent(hand), 100)
  }

  /** On a face of non-negative radius every hand fits inside the radius, and
      the hour hand is the shortest and the second hand the longest. */
  lemma {:induction false} HandLengthsOrdered(radius: int)
    requires radius >= 0
    ensures 0 <= HandLength(radius, HourHand) <= HandLength(radius, MinuteHand)
    ensures HandLength(radius, MinuteHand) <= HandLength(radius, SecondHand)
    ensures HandLength(radius, SecondHand) <= radius
  {
    TruncDivMonotone(radius * 50, radius * 75, 100);
    TruncDivMonotone(radius * 75, radius * 85, 100);
    TruncDivBound(radius * 85, 100, radius);
  }
}
