/** `image_to_frequencies` (src/main.rs:97-114): every image row becomes one
    frequency band, the top row the highest frequency, and every pixel of the row
    one amplitude of that band, left to right in time order. */
module Spectrum {
  import opened Numeric
  import opened ImageData
  import opened Amplitude

  /** One `(f64, Vec<f64>)` pair of the band list: a frequency in Hz and one
      amplitude per time block. */
  datatype Band = Band(frequency: real, amplitudes: seq<real>)

  /** `fstep`: the frequency range divided evenly across the image rows (src/main.rs:99). */
  function FrequencyStep(freqRange: Range, height: nat): (step: real)
    requires height > 0
    ensures step * height as real == freqRange.end - freqRange.start
  {
    (freqRange.end - freqRange.start) / height as real
  }

  /** The frequency given to row `i` (src/main.rs:103): row `height - 1` (the bottom
      row) gets the start of the range, each row above it one step more. */
  function RowFrequency(freqRange: Range, height: nat, i: nat): real
    requires i < height
  {
    freqRange.start + (height - 1 - i) as real * FrequencyStep(freqRange, height)
  }

  /** The amplitudes of one row, pixel by pixel (src/main.rs:106-108). */
  function RowAmplitudes(colRange: Range, row: seq<byte>,
                         powf: (real, real) -> real, sqrt: real -> real): (amps: seq<real>)
    ensures |amps| == |row|
    ensures forall k :: 0 <= k < |row| ==> amps[k] == PixelValueToAmplitude(colRange, row[k], powf, sqrt)
  {
    seq(|row|, k requires 0 <= k < |row| => PixelValueToAmplitude(colRange, row[k], powf, sqrt))
  }

  /** The loop of `image_to_frequencies`. The image must be `width * height` bytes
      with `width > 0`, as `load_image` builds it: a zero width divides by zero in
      `height()`, and a short last row would make `height() - 1 - i` underflow.
      `timeRange` is accepted and unused, as in the source. */
  method ImageToFrequencies(image: Image, freqRange: Range, timeRange: Range, colRange: Range,
                            powf: (real, real) -> real, sqrt: real -> real)
    returns (ret: seq<Band>)
    requires image.width > 0
    requires |image.data| % image.width == 0
    ensures |Rows(image)| == |ret| == Height(image)
    ensures forall i :: 0 <= i < |ret| ==> ret[i].frequency == RowFrequency(freqRange, Height(image), i)
    ensures forall i :: 0 <= i < |ret| ==>
              ret[i].amplitudes == RowAmplitudes(colRange, Rows(image)[i], powf, sqrt)
    ensures forall i :: 0 <= i < |ret| ==> |ret[i].amplitudes| == Width(image)
  {
    var h := Height(image);
    WholeRows(image);
    RowCountOfFullImage(image, h);
    var rows := Rows(image);
    ret := [];
    var i := 0;
    while i < |rows|
      invariant 0 <= i <= |rows| == h
      invariant |ret| == i
      invariant forall j :: 0 <= j < i ==> ret[j].frequency == RowFrequency(freqRange, h, j)
      invariant forall j :: 0 <= j < i ==> ret[j].amplitudes == RowAmplitudes(colRange, rows[j], powf, sqrt)
    {
      // `image.height() - 1 - i` is a usize subtraction: it must not underflow.
      assert i + 1 <= h;
      var f := RowFrequency(freqRange, h, i);
      var vals := RowAmplitudes(colRange, rows[i], powf, sqrt);
      ret := ret + [Band(f, vals)];
      i := i + 1;
    }
  }

  /** The bottom row is placed exactly at the start of the frequency range. */
  lemma BottomRowAtRangeStart(freqRange: Range, height: nat)
    requires height > 0
    ensures RowFrequency(freqRange, height, height - 1) == freqRange.start
  {
  }

  /** The top row is one step below the end of the frequency range. */
  lemma TopRowOneStepBelowRangeEnd(freqRange: Range, height: nat)
    requires height > 0
    ensures RowFrequency(freqRange, height, 0) + FrequencyStep(freqRange, height) == freqRange.end
  {
    var step := FrequencyStep(freqRange, height);
    assert step * height as real == freqRange.end - freqRange.start;
    assert (height - 1) as real * step + step == height as real * step;
  }

  /** On an ascending frequency range, frequencies strictly decrease from the top
      row down and stay within `[start, end)`. */
  lemma RowFrequenciesDecrease(freqRange: Range, height: nat, i: nat, j: nat)
    requires freqRange.start < freqRange.end
    requires i < j < height
    ensures RowFrequency(freqRange, height, i) > RowFrequency(freqRange, height, j)
    ensures freqRange.start <= RowFrequency(freqRange, height, j)
    ensures RowFrequency(freqRange, height, i) < freqRange.end
  {
    var step := FrequencyStep(freqRange, height);
    assert step > 0.0;
    var a := (height - 1 - i) as real;
    var b := (height - 1 - j) as real;
    assert a * step - b * step == (a - b) * step;
    assert (a - b) * step > 0.0;
    assert b * step >= 0.0;
    TopRowOneStepBelowRangeEnd(freqRange, height);
    var top := (height - 1) as real;
    assert top * step - a * step == (top - a) * step;
    assert (top - a) * step >= 0.0;
  }

  /** The two-row example image `[255, 0]` (one pixel wide) over 100..200 Hz and
      -20..0 dB: the top row is a 150 Hz band of amplitude 1, the bottom row a
      100 Hz band. */
  lemma TwoRowExample(powf: (real, real) -> real, sqrt: real -> real)
    requires PowerOfTen(powf) && SquareRoot(sqrt)
    ensures RowFrequency(Range(100.0, 200.0), 2, 0) == 150.0
    ensures RowFrequency(Range(100.0, 200.0), 2, 1) == 100.0
    ensures PixelValueToAmplitude(Range(-20.0, 0.0), 255, powf, sqrt) == 1.0
    ensures Decibels(Range(-20.0, 0.0), 0) == -20.0
  {
    FullScaleIsUnitAmplitude(Range(-20.0, 0.0), powf, sqrt);
  }
}
