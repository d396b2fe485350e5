/** `pixel_value_to_amplitude` (src/main.rs:86-95): an 8-bit intensity is read as a
    power level on a decibel scale and turned into a linear amplitude.
    `powf` and `sqrt` are not interpreted: they are passed in, and lemmas that need
    their shape say so in their preconditions. */
module Amplitude {
  import opened Numeric

  /** The decibel value of a pixel: a linear interpolation of `value / 255` between
      the two ends of the colour range (src/main.rs:88). */
  function Decibels(dbRange: Range, value: byte): (db: real)
    ensures value == 0 ==> db == dbRange.start
    ensures value == 255 ==> db == dbRange.end
  {
    dbRange.start + (value as real / 255.0) * (dbRange.end - dbRange.start)
  }

  /** The source keeps a disabled alternative (`if true { .. } else { db }`); only
      the power branch `sqrt(10^(db/10))` can be taken. */
  function PixelValueToAmplitude(dbRange: Range, value: byte,
                                 powf: (real, real) -> real, sqrt: real -> real): (a: real)
    ensures a == sqrt(powf(10.0, Decibels(dbRange, value) / 10.0))
  {
    var db := Decibels(dbRange, value);
    if true then sqrt(powf(10.0, db / 10.0)) else db
  }

  /** `x => 10^x` is positive, increasing, and 1 at 0. */
  ghost predicate PowerOfTen(powf: (real, real) -> real)
  {
    && (forall x :: powf(10.0, x) > 0.0)
    && (forall x, y :: x <= y ==> powf(10.0, x) <= powf(10.0, y))
    && powf(10.0, 0.0) == 1.0
  }

  /** `sqrt` is non-negative, increasing on the non-negative reals, and 1 at 1. */
  ghost predicate SquareRoot(sqrt: real -> real)
  {
    && (forall x :: x >= 0.0 ==> sqrt(x) >= 0.0)
    && (forall x, y :: 0.0 <= x <= y ==> sqrt(x) <= sqrt(y))
    && sqrt(1.0) == 1.0
  }

  /** Every decibel value lies between the two ends of the range, whichever way
      round the range is given. */
  lemma DecibelsWithinRange(dbRange: Range, value: byte)
    ensures dbRange.start <= dbRange.end ==> dbRange.start <= Decibels(dbRange, value) <= dbRange.end
    ensures dbRange.end <= dbRange.start ==> dbRange.end <= Decibels(dbRange, value) <= dbRange.start
  {
    var p := value as real / 255.0;
    var span := dbRange.end - dbRange.start;
    assert 0.0 <= p <= 1.0;
    assert Decibels(dbRange, value) == dbRange.start + p * span;
    var q := 1.0 - p;
    assert span - p * span == q * span;
    if span >= 0.0 {
      assert p * span >= 0.0 && q * span >= 0.0;
    } else {
      assert p * span <= 0.0 && q * span <= 0.0;
    }
  }

  /** A brighter pixel never maps to a lower decibel value when the range is
      ascending, and to a strictly higher one when it is strictly ascending. */
  lemma DecibelsMonotone(dbRange: Range, v1: byte, v2: byte)
    requires dbRange.start <= dbRange.end
    requires v1 <= v2
    ensures Decibels(dbRange, v1) <= Decibels(dbRange, v2)
    ensures dbRange.start < dbRange.end && v1 < v2 ==> Decibels(dbRange, v1) < Decibels(dbRange, v2)
  {
    var span := dbRange.end - dbRange.start;
    var p1 := v1 as real / 255.0;
    var p2 := v2 as real / 255.0;
    assert Decibels(dbRange, v1) == dbRange.start + p1 * span;
    assert Decibels(dbRange, v2) == dbRange.start + p2 * span;
    var d := p2 - p1;
    assert p2 * span - p1 * span == d * span;
    assert Decibels(dbRange, v2) - Decibels(dbRange, v1) == d * span;
    ProductSign(d, span);
  }

  lemma ProductSign(u: real, v: real)
    ensures u >= 0.0 && v >= 0.0 ==> u * v >= 0.0
    ensures u > 0.0 && v > 0.0 ==> u * v > 0.0
  {
  }

  /** With a real power and square root, amplitudes are non-negative on any
      colour range, and non-decreasing in the pixel value over an ascending one. */
  lemma AmplitudeMonotone(dbRange: Range, v1: byte, v2: byte,
                          powf: (real, real) -> real, sqrt: real -> real)
    requires PowerOfTen(powf) && SquareRoot(sqrt)
    ensures 0.0 <= PixelValueToAmplitude(dbRange, v1, powf, sqrt)
    ensures dbRange.start <= dbRange.end && v1 <= v2 ==>
              PixelValueToAmplitude(dbRange, v1, powf, sqrt)
              <= PixelValueToAmplitude(dbRange, v2, powf, sqrt)
  {
    assert powf(10.0, Decibels(dbRange, v1) / 10.0) > 0.0;
    if dbRange.start <= dbRange.end && v1 <= v2 {
      DecibelsMonotone(dbRange, v1, v2);
      var p1 := powf(10.0, Decibels(dbRange, v1) / 10.0);
      var p2 := powf(10.0, Decibels(dbRange, v2) / 10.0);
      assert 0.0 < p1 <= p2;
    }
  }

  /** A full-intensity pixel on a range that ends at 0 dB has amplitude 1. */
  lemma FullScaleIsUnitAmplitude(dbRange: Range, powf: (real, real) -> real, sqrt: real -> real)
    requires PowerOfTen(powf) && SquareRoot(sqrt)
    requires dbRange.end == 0.0
    ensures PixelValueToAmplitude(dbRange, 255, powf, sqrt) == 1.0
  {
    assert Decibels(dbRange, 255) / 10.0 == 0.0;
  }
}
