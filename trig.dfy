/** The Pebble SDK's fixed-point trigonometry as the watchface uses it.
    A full turn is TrigMaxAngle units; sine and cosine are scaled by TrigMaxRatio. */
module Trig {
  import opened Arith

  /** TRIG_MAX_ANGLE of the Pebble SDK: the angle unit count of a full turn. */
  const TrigMaxAngle: int := 0x10000
  /** TRIG_MAX_RATIO of the Pebble SDK: the value of sine or cosine at 1. */
  const TrigMaxRatio: int := 0xffff

  /** The SDK's `sin_lookup` and `cos_lookup` tables, left uninterpreted. */
  datatype TrigTable = TrigTable(sin: int -> int, cos: int -> int)

  /** What the SDK promises of its tables: every entry lies in [-TrigMaxRatio, TrigMaxRatio]. */
  ghost predicate Bounded(t: TrigTable)
  {
    && (forall a :: -TrigMaxRatio <= t.sin(a) <= TrigMaxRatio)
    && (forall a :: -TrigMaxRatio <= t.cos(a) <= TrigMaxRatio)
  }

  /** `degrees_to_trig_angle`: TRIG_MAX_ANGLE * degrees / 360 in C `int`
      arithmetic. The product stays within 32 bits exactly when the
      degrees lie in [-32768, 32767]; outside that the C code overflows. */
  function DegreesToTrigAngle(degrees: int): int
    requires -32768 <= degrees <= 32767
  {
    TruncDiv(TrigMaxAngle * degrees, 360)
  }

  /** A turn of 0 to 360 degrees maps into one SDK turn, and whole turns
      map exactly onto whole multiples of TrigMaxAngle. */
  lemma {:induction false} DegreesToTrigAngleRange(degrees: int)
    requires -32768 <= degrees <= 32767
    ensures degrees >= 0 ==> DegreesToTrigAngle(degrees) >= 0
    ensures 0 <= degrees < 360 ==> 0 <= DegreesToTrigAngle(degrees) < TrigMaxAngle
    ensures degrees % 360 == 0 ==> DegreesToTrigAngle(degrees) == degrees / 360 * TrigMaxAngle
  {
    if degrees % 360 == 0 {
      TruncDivExact(degrees / 360 * TrigMaxAngle, 360);
      assert TrigMaxAngle * degrees == degrees / 360 * TrigMaxAngle * 360;
    } else if 0 <= degrees < 360 {
      TruncDivStrict(TrigMaxAngle * degrees, TrigMaxAngle * 360, 360);
      TruncDivExact(TrigMaxAngle, 360);
    }
  }

  /** The conversion keeps the order of angles, and never merges two
      different whole degrees: a degree is about 182 angle units. */
  lemma {:induction false} DegreesToTrigAngleStrictlyMonotone(d: int, d': int)
    requires -32768 <= d < d' <= 32767
    ensures DegreesToTrigAngle(d) < DegreesToTrigAngle(d')
  {
    TruncDivStrict(TrigMaxAngle * d, TrigMaxAngle * d', 360);
  }

  /** Zero and the quarter turns convert exactly. */
  lemma QuarterTurns()
    ensures DegreesToTrigAngle(0) == 0
    ensures DegreesToTrigAngle(90) == TrigMaxAngle / 4
    ensures DegreesToTrigAngle(180) == TrigMaxAngle / 2
    ensures DegreesToTrigAngle(270) == 3 * TrigMaxAngle / 4
  {
  }
}
