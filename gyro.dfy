/**
 * The gyroscope side of the application: the five rotation-rate bands of
 * `gyroRotationRate` (Core/Inc/app.h) and the classifier
 * `getGyroRateOfRotation` (Core/Src/app.c), which maps one raw signed 16-bit
 * velocity reading to a band.
 */
module Gyro {

  /** `int16_t`, the type of the raw velocity the gyro driver returns. */
  type Int16 = x: int | -0x8000 <= x < 0x8000

  /** `gyroRotationRate`. Each enumerator carries an integer value, and the source
      compares raw readings and bands by those values. */
  datatype RotationRate =
    | CounterClockwiseFast
    | CounterClockwiseSlow
    | NearlyZero
    | ClockwiseSlow
    | ClockwiseFast
  {
    /** The enumerator's integer value as declared in the enum. */
    function Value(): int {
      match this
      case CounterClockwiseFast => -15000
      case CounterClockwiseSlow => -2000
      case NearlyZero => 0
      case ClockwiseSlow => 2000
      case ClockwiseFast => 15000
    }

    /** The two counter-clockwise bands. */
    predicate IsCounterClockwise() {
      this == CounterClockwiseFast || this == CounterClockwiseSlow
    }
  }

  /** The band table: the range of raw velocities each band stands for,
      with its inclusive and exclusive edges. */
  predicate InBand(v: int, r: RotationRate) {
    match r
    case CounterClockwiseFast => v <= -15000
    case CounterClockwiseSlow => -15000 < v <= -2000
    case NearlyZero => -2000 < v < 2000
    case ClockwiseSlow => 2000 <= v < 15000
    case ClockwiseFast => 15000 <= v
  }

  /** `getGyroRateOfRotation` after the driver read: the if/else-if chain that
      compares the raw reading against the enumerators' values. */
  function RateOfRotation(raw: Int16): (r: RotationRate)
    ensures InBand(raw, r)
  {
    if raw <= CounterClockwiseFast.Value() then CounterClockwiseFast
    else if raw <= CounterClockwiseSlow.Value() then CounterClockwiseSlow
    else if raw < ClockwiseSlow.Value() then NearlyZero
    else if raw < ClockwiseFast.Value() then ClockwiseSlow
    else ClockwiseFast
  }

  /** No raw value lies in two bands, so the bands partition the integers. */
  lemma BandsDisjoint(v: int, a: RotationRate, b: RotationRate)
    requires InBand(v, a) && InBand(v, b)
    ensures a == b
  {
  }

  /** The classifier returns exactly the band whose range holds the reading. */
  lemma RateOfRotationIffInBand(raw: Int16, r: RotationRate)
    ensures RateOfRotation(raw) == r <==> InBand(raw, r)
  {
    if InBand(raw, r) {
      BandsDisjoint(raw, r, RateOfRotation(raw));
    }
  }

  /** The edges of the bands: -15000 and -2000 belong to the counter-clockwise
      bands, 2000 and 15000 to the clockwise ones, so the nearly-zero band is
      asymmetric around 0. */
  lemma BandEdges()
    ensures RateOfRotation(-15000) == CounterClockwiseFast
    ensures RateOfRotation(-14999) == CounterClockwiseSlow
    ensures RateOfRotation(-2000) == CounterClockwiseSlow
    ensures RateOfRotation(-1999) == NearlyZero
    ensures RateOfRotation(1999) == NearlyZero
    ensures RateOfRotation(2000) == ClockwiseSlow
    ensures RateOfRotation(14999) == ClockwiseSlow
    ensures RateOfRotation(15000) == ClockwiseFast
    ensures RateOfRotation(-0x8000) == CounterClockwiseFast
    ensures RateOfRotation(0x7fff) == ClockwiseFast
  {
  }

  /** A faster counter-clockwise reading never lands in a band of higher value:
      the classifier is monotone in the enumerators' integer order. */
  lemma RateOfRotationMonotone(v1: Int16, v2: Int16)
    requires v1 <= v2
    ensures RateOfRotation(v1).Value() <= RateOfRotation(v2).Value()
  {
  }

  /** Every band is produced by some 16-bit reading. */
  lemma EveryBandReachable(r: RotationRate)
    ensures exists raw: Int16 :: RateOfRotation(raw) == r
  {
    var raw: Int16 := match r
      case CounterClockwiseFast => -15000
      case CounterClockwiseSlow => -2000
      case NearlyZero => 0
      case ClockwiseSlow => 2000
      case ClockwiseFast => 15000;
    RateOfRotationIffInBand(raw, r);
  }

  /** Distinct bands carry distinct values, so comparing values compares bands. */
  lemma ValueInjective(a: RotationRate, b: RotationRate)
    requires a.Value() == b.Value()
    ensures a == b
  {
  }

  /** The integer comparison `rotation <= counterClockwiseSlow` holds exactly
      for the counter-clockwise bands. */
  lemma AtMostSlowIffCounterClockwise(r: RotationRate)
    ensures r.Value() <= CounterClockwiseSlow.Value() <==> r.IsCounterClockwise()
  {
  }

  /** A reading is classified counter-clockwise exactly when it is at most -2000. */
  lemma ClassifiedCounterClockwiseIff(raw: Int16)
    ensures RateOfRotation(raw).IsCounterClockwise() <==> raw <= -2000
  {
  }
}
