/** `normalise` (src/main.rs:115-123): the synthesised buffer is scaled in place so
    that its loudest sample has magnitude 0.9. */
module Normalise {
  import opened Numeric

  /** The seed of the peak search (src/main.rs:119). */
  const Seed: real := -1000.0

  /** The target peak magnitude (src/main.rs:121). */
  const Headroom: real := 0.9

  /** `iter().map(|v| v.abs()).fold(acc, |a, b| a.max(b))`, left to right. */
  function PeakFold(acc: real, s: seq<real>): real
    decreases |s|
  {
    if s == [] then acc else PeakFold(Max(acc, Abs(s[0])), s[1..])
  }

  /** The fold is the larger of `acc` and every magnitude in `s`, and it is one
      of them. */
  lemma {:induction false} PeakFoldIsMax(acc: real, s: seq<real>)
    ensures PeakFold(acc, s) >= acc
    ensures forall k :: 0 <= k < |s| ==> Abs(s[k]) <= PeakFold(acc, s)
    ensures PeakFold(acc, s) == acc || exists k :: 0 <= k < |s| && PeakFold(acc, s) == Abs(s[k])
    decreases |s|
  {
    if s != [] {
      var next := Max(acc, Abs(s[0]));
      PeakFoldIsMax(next, s[1..]);
      if PeakFold(acc, s) != next {
        var k :| 0 <= k < |s[1..]| && PeakFold(acc, s) == Abs(s[1..][k]);
        assert PeakFold(acc, s) == Abs(s[k + 1]);
      }
      forall k | 0 <= k < |s|
        ensures Abs(s[k]) <= PeakFold(acc, s)
      {
        if k > 0 {
          assert s[k] == s[1..][k - 1];
        }
      }
    }
  }

  /** `max_a`, the peak magnitude found by `normalise`. */
  function Peak(s: seq<real>): real
  {
    PeakFold(Seed, s)
  }

  /** On a non-empty buffer the seed never wins: `max_a` is the largest magnitude
      in the buffer. On an empty one it is the seed itself. */
  lemma PeakIsMaxMagnitude(s: seq<real>) returns (j: nat)
    ensures s == [] ==> Peak(s) == Seed
    ensures s != [] ==> j < |s| && Peak(s) == Abs(s[j])
    ensures forall k :: 0 <= k < |s| ==> Abs(s[k]) <= Peak(s)
  {
    j := 0;
    PeakFoldIsMax(Seed, s);
    if s != [] {
      assert Abs(s[0]) <= Peak(s);
      j :| 0 <= j < |s| && Peak(s) == Abs(s[j]);
    }
  }

  /** Every sample multiplied by the same factor. */
  function Scale(s: seq<real>, c: real): (r: seq<real>)
    ensures |r| == |s|
    ensures forall k :: 0 <= k < |s| ==> r[k] == s[k] * c
  {
    seq(|s|, k requires 0 <= k < |s| => s[k] * c)
  }

  /** The buffer that `normalise` leaves behind. Rust divides by `max_a`, so an
      all-zero buffer (peak 0) would fill it with NaN. */
  function Normalised(s: seq<real>): seq<real>
    requires Peak(s) != 0.0
  {
    Scale(s, Headroom / Peak(s))
  }

  /** `normalise` itself: the peak is found, then every sample is scaled in place. */
  method Normalise(samples: array<real>)
    requires Peak(samples[..]) != 0.0
    modifies samples
    ensures samples[..] == Normalised(old(samples[..]))
  {
    var maxA := Peak(samples[..]);
    var scale := Headroom / maxA;
    ScaleInPlace(samples, scale);
  }

  /** The loop `for s in samples { *s *= scale; }`. */
  method ScaleInPlace(samples: array<real>, scale: real)
    modifies samples
    ensures samples[..] == Scale(old(samples[..]), scale)
  {
    for i := 0 to samples.Length
      invariant forall k :: 0 <= k < i ==> samples[k] == old(samples[k]) * scale
      invariant forall k :: i <= k < samples.Length ==> samples[k] == old(samples[k])
    {
      samples[i] := samples[i] * scale;
    }
    assert forall k :: 0 <= k < samples.Length ==> samples[..][k] == Scale(old(samples[..]), scale)[k];
  }

  /** The precondition of `Normalise` excludes exactly the all-silent buffers:
      the peak is positive iff some sample is non-zero, zero iff the buffer is
      non-empty and silent, and negative only for an empty buffer. */
  lemma PeakSign(s: seq<real>)
    ensures Peak(s) > 0.0 <==> exists k :: 0 <= k < |s| && s[k] != 0.0
    ensures Peak(s) == 0.0 <==> s != [] && forall k :: 0 <= k < |s| ==> s[k] == 0.0
    ensures Peak(s) < 0.0 <==> s == []
  {
    var j := PeakIsMaxMagnitude(s);
    if exists k :: 0 <= k < |s| && s[k] != 0.0 {
      var k :| 0 <= k < |s| && s[k] != 0.0;
      assert Abs(s[k]) > 0.0;
    }
  }

  lemma AbsOfScaled(x: real, c: real)
    requires c > 0.0
    ensures Abs(x * c) == Abs(x) * c
  {
    if x < 0.0 {
      assert x * c < 0.0;
    } else {
      assert x * c >= 0.0;
    }
  }

  lemma MaxOfScaled(a: real, b: real, c: real)
    requires c > 0.0
    ensures Max(a * c, b * c) == Max(a, b) * c
  {
    if a < b {
      MulMonotoneReal(a, b, c);
    } else {
      MulMonotoneReal(b, a, c);
    }
  }

  /** A map of the magnitudes that distributes over `Max` carries the fold of
      `s` to the fold of `r`. */
  lemma {:induction false} PeakFoldMapped(acc: real, s: seq<real>, r: seq<real>, f: real -> real)
    requires acc >= 0.0
    requires |r| == |s|
    requires forall k :: 0 <= k < |s| ==> Abs(r[k]) == f(Abs(s[k]))
    requires forall a, b :: 0.0 <= a && 0.0 <= b ==> Max(f(a), f(b)) == f(Max(a, b))
    ensures PeakFold(f(acc), r) == f(PeakFold(acc, s))
    decreases |s|
  {
    if s != [] {
      var m := Max(acc, Abs(s[0]));
      assert Max(f(acc), Abs(r[0])) == f(m);
      assert forall k :: 0 <= k < |s| - 1 ==> Abs(r[1..][k]) == f(Abs(s[1..][k])) by {
        forall k | 0 <= k < |s| - 1 ensures Abs(r[1..][k]) == f(Abs(s[1..][k])) {
          assert r[1..][k] == r[k + 1] && s[1..][k] == s[k + 1];
        }
      }
      PeakFoldMapped(m, s[1..], r[1..], f);
    }
  }

  /** The seed is below every magnitude, so a non-empty buffer folds the same
      from 0. */
  lemma PeakFromZero(s: seq<real>)
    requires s != []
    ensures Peak(s) == PeakFold(0.0, s)
  {
    assert Max(Seed, Abs(s[0])) == Max(0.0, Abs(s[0]));
  }

  /** The peak of `r` is `f` of the peak of `s`. */
  lemma PeakMapped(s: seq<real>, r: seq<real>, f: real -> real)
    requires s != []
    requires |r| == |s|
    requires forall k :: 0 <= k < |s| ==> Abs(r[k]) == f(Abs(s[k]))
    requires forall a, b :: 0.0 <= a && 0.0 <= b ==> Max(f(a), f(b)) == f(Max(a, b))
    requires f(0.0) == 0.0
    ensures Peak(r) == f(Peak(s))
  {
    PeakFromZero(s);
    PeakFromZero(r);
    PeakFoldMapped(0.0, s, r, f);
  }

  /** Scaling by a positive factor scales the peak by the same factor. */
  lemma PeakOfScaled(s: seq<real>, c: real)
    requires s != []
    requires c > 0.0
    ensures Peak(Scale(s, c)) == Peak(s) * c
  {
    var r := Scale(s, c);
    var f := (x: real) => x * c;
    forall k | 0 <= k < |s| ensures Abs(r[k]) == f(Abs(s[k])) {
      AbsOfScaled(s[k], c);
    }
    forall a, b | 0.0 <= a && 0.0 <= b ensures Max(f(a), f(b)) == f(Max(a, b)) {
      MaxOfScaled(a, b, c);
    }
    PeakMapped(s, r, f);
  }

  /** After `normalise` the loudest sample has magnitude exactly 0.9, so every
      sample lies in [-1, 1] as the PCM writer asserts (src/main.rs:47). */
  lemma NormalisedPeak(s: seq<real>)
    requires Peak(s) > 0.0
    ensures Peak(Normalised(s)) == Headroom
    ensures forall k :: 0 <= k < |s| ==> -1.0 <= Normalised(s)[k] <= 1.0
  {
    PeakSign(s);
    var c := Headroom / Peak(s);
    PeakOfScaled(s, c);
    assert Peak(s) * c == Headroom;
    var r := Normalised(s);
    var _ := PeakIsMaxMagnitude(r);
  }

  /** Normalising a normalised buffer changes nothing. */
  lemma NormaliseIdempotent(s: seq<real>)
    requires Peak(s) > 0.0
    ensures Peak(Normalised(s)) != 0.0
    ensures Normalised(Normalised(s)) == Normalised(s)
  {
    NormalisedPeak(s);
    var r := Normalised(s);
    assert Headroom / Peak(r) == 1.0;
    assert Scale(r, 1.0) == r;
  }
}
