/** The twelve hour markers of the face, which of them are major, and the
    hour labels written beside the major ones. */
module Layout {
  import opened Trig

  const HourMarkerCount: int := 12
  const MajorMarkerInterval: int := 3
  const MajorMarkerLength: int := 15
  const MinorMarkerLength: int := 8
  const MajorMarkerWidth: int := 3
  const MinorMarkerWidth: int := 1
  const NumberOffsetFromMarker: int := 10
  const DegreesPerHour: int := 30
  /** `number_buffer` holds two characters and the terminating NUL. */
  const NumberBufferSize: nat := 3

  /** `is_major_marker`. C's `%` truncates where Dafny's is Euclidean, but
      both give remainder 0 exactly for the multiples of the interval. */
  function IsMajorMarker(hourIndex: int): bool
  {
    hourIndex % MajorMarkerInterval == 0
  }

  /** The major markers are those at 12, 3, 6 and 9 o'clock. */
  lemma MajorMarkers(hourIndex: int)
    requires 0 <= hourIndex < HourMarkerCount
    ensures IsMajorMarker(hourIndex) <==> hourIndex == 0 || hourIndex == 3 || hourIndex == 6 || hourIndex == 9
  {
  }

  /** `get_display_hour`: the label of marker `hourIndex`, 12 for the top one. */
  function DisplayHour(hourIndex: int): int
  {
    if hourIndex == 0 then 12 else hourIndex
  }

  /** Every marker gets an hour 1..12 that is its index modulo 12, different
      markers get different hours, and every hour 1..12 is the label of
      exactly the marker index hour mod 12. */
  lemma DisplayHourBijective(i: int, j: int, hour: int)
    requires 0 <= i < HourMarkerCount && 0 <= j < HourMarkerCount
    ensures 1 <= DisplayHour(i) <= 12 && DisplayHour(i) % 12 == i
    ensures DisplayHour(i) == DisplayHour(j) ==> i == j
    ensures 1 <= hour <= 12 ==> DisplayHour(hour % 12) == hour
  {
  }

  /** The angle of marker `hourIndex`, `hour_index * DEGREES_PER_HOUR`. */
  function MarkerDegrees(hourIndex: int): int
  {
    hourIndex * DegreesPerHour
  }

  /** The markers sit at distinct angles, increasing clockwise and all
      within one turn, both in degrees and in SDK angle units. */
  lemma {:induction false} MarkerAnglesDistinct(i: int, j: int)
    requires 0 <= i < j < HourMarkerCount
    ensures 0 <= MarkerDegrees(i) < MarkerDegrees(j) < 360
    ensures 0 <= DegreesToTrigAngle(MarkerDegrees(i)) < DegreesToTrigAngle(MarkerDegrees(j)) < TrigMaxAngle
  {
    DegreesToTrigAngleStrictlyMonotone(MarkerDegrees(i), MarkerDegrees(j));
    DegreesToTrigAngleRange(MarkerDegrees(i));
    DegreesToTrigAngleRange(MarkerDegrees(j));
  }

  /** `marker_length` of `draw_hour_marker`. */
  function MarkerLength(major: bool): int
  {
    if major then MajorMarkerLength else MinorMarkerLength
  }

  /** `marker_width` of `draw_hour_marker`. */
  function MarkerWidth(major: bool): int
  {
    if major then MajorMarkerWidth else MinorMarkerWidth
  }

  function DigitChar(d: int): (c: char)
    requires 0 <= d < 10
    ensures '0' <= c <= '9' && c as int - '0' as int == d
  {
    (('0' as int) + d) as char
  }

  predicate IsDigits(s: string)
  {
    forall k :: 0 <= k < |s| ==> '0' <= s[k] <= '9'
  }

  /** The decimal digits of n, most significant first, without leading zeros. */
  function DecimalString(n: nat): string
    decreases n
  {
    if n < 10 then [DigitChar(n)] else DecimalString(n / 10) + [DigitChar(n % 10)]
  }

  /** The digits of n are at least one decimal digit, one exactly for n < 10,
      and never start with a zero unless n is zero. */
  lemma {:induction false} DecimalStringDigits(n: nat)
    ensures var s := DecimalString(n);
      && 1 <= |s| && IsDigits(s)
      && (|s| == 1 <==> n < 10)
      && (n > 0 ==> s[0] != '0')
    decreases n
  {
    if n >= 10 {
      DecimalStringDigits(n / 10);
    }
  }

  /** Reads a string of decimal digits back as a number: the reference
      against which DecimalString is checked. */
  function ParseDecimal(s: string): int
  {
    if s == [] then 0 else ParseDecimal(s[..|s| - 1]) * 10 + (s[|s| - 1] as int - '0' as int)
  }

  lemma {:induction false} ParseDecimalString(n: nat)
    ensures ParseDecimal(DecimalString(n)) == n
    decreases n
  {
    DecimalStringDigits(n);
    if n >= 10 {
      var s := DecimalString(n);
      DecimalStringDigits(n / 10);
      assert s[..|s| - 1] == DecimalString(n / 10);
      ParseDecimalString(n / 10);
    }
  }

  /** What `"%d"` prints for an int: a minus sign for negatives, then the digits. */
  function FormatInt(n: int): string
  {
    if n < 0 then "-" + DecimalString(-n) else DecimalString(n)
  }

  /** The text `snprintf(buf, size, "%d", n)` leaves in a buffer of `size`
      bytes: the formatted number, cut to `size - 1` characters. */
  function BufferText(n: int, size: nat): string
    requires size >= 1
  {
    var full := FormatInt(n);
    if |full| <= size - 1 then full else full[..size - 1]
  }

  /** The buffer holds the longest prefix of the formatted number that
      leaves room for the NUL: all of it when it fits. */
  lemma BufferTextTruncates(n: int, size: nat)
    requires size >= 1
    ensures |BufferText(n, size)| <= size - 1
    ensures BufferText(n, size) <= FormatInt(n)
    ensures |FormatInt(n)| <= size - 1 <==> BufferText(n, size) == FormatInt(n)
    ensures |FormatInt(n)| > size - 1 ==> |BufferText(n, size)| == size - 1
  {
  }

  /** The label drawn for marker `hourIndex`. */
  function HourLabel(hourIndex: int): string
  {
    BufferText(DisplayHour(hourIndex), NumberBufferSize)
  }

  /** Every label 1..12 fits the three-byte buffer, so it is never cut and
      reads back as the display hour. */
  lemma {:induction false} HourLabelFits(hourIndex: int)
    requires 0 <= hourIndex < HourMarkerCount
    ensures HourLabel(hourIndex) == DecimalString(DisplayHour(hourIndex))
    ensures 1 <= |HourLabel(hourIndex)| <= 2
    ensures ParseDecimal(HourLabel(hourIndex)) == DisplayHour(hourIndex)
  {
    var h := DisplayHour(hourIndex);
    BufferTextTruncates(h, NumberBufferSize);
    DecimalStringDigits(h);
    if h >= 10 {
      DecimalStringDigits(h / 10);
    }
    ParseDecimalString(h);
  }

  /** The labels on the face are 12, 3, 6 and 9. */
  lemma MajorLabels()
    ensures HourLabel(0) == "12" && HourLabel(3) == "3"
    ensures HourLabel(6) == "6" && HourLabel(9) == "9"
  {
    assert DecimalString(12) == DecimalString(1) + [DigitChar(2)];
  }
}
