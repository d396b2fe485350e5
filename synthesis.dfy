/** `frequencies_to_waveform` (src/main.rs:127-199) as the loops that fill the
    output buffer in place, each proved against the sample-by-sample description
    in `SynthesisSpec`. */
module Synthesis {
  import opened Numeric
  import opened Spectrum
  import opened SynthesisSpec

  /** `while t > 2 * PI { t -= 2 * PI; }` (src/main.rs:193-195). */
  method ReducePhase(t: real) returns (r: real)
    ensures r == ReducedPhase(t)
  {
    r := t;
    while r > TwoPi
      invariant ReducedPhase(r) == ReducedPhase(t)
      decreases if r > TwoPi then r.Floor else 0
    {
      r := r - TwoPi;
    }
  }

  /** The head crossfade of block `b`, whose chunk starts at `base`
      (src/main.rs:163-172): sample `i` fades from the midpoint with the previous
      block to the block's own amplitude. */
  method AddHead(output: array<real>, base: nat, amps: seq<real>, b: nat, spb: nat,
                 t: real, step: real, sin: real -> real)
    returns (tNext: real)
    requires b < |amps| && CrossfadeDefined(spb, amps)
    requires BlockLayout(spb, b, |amps|).start != 0
    requires base + spb <= output.Length
    modifies output
    ensures tNext == Phase(t, step, InterpolationCount(spb))
    ensures forall k :: base <= k < base + spb ==>
              output[k] == old(output[k]) + HeadSample(amps, b, spb, t, step, sin, k - base)
    ensures forall k :: 0 <= k < output.Length && !(base <= k < base + spb) ==>
              output[k] == old(output[k])
  {
    var ic := InterpolationCount(spb);
    var blockAmp := amps[b];
    var prevAmp := Midpoint(amps[b - 1], blockAmp);
    tNext := t;
    for i := 0 to ic
      invariant tNext == Phase(t, step, i)
      invariant forall k :: base <= k < base + i ==>
                  output[k] == old(output[k]) + HeadSample(amps, b, spb, t, step, sin, k - base)
      invariant forall k :: 0 <= k < output.Length && !(base <= k < base + i) ==> output[k] == old(output[k])
    {
      var a := Crossfade(blockAmp, prevAmp, i, ic);
      output[base + i] := output[base + i] + Tone(a, tNext, sin);
      tNext := tNext + step;
    }
    assert forall k :: ic <= k ==> HeadSample(amps, b, spb, t, step, sin, k) == 0.0;
  }

  /** The constant-amplitude body `start .. end` of block `b` (src/main.rs:174-178).
      The phase on entry is the block's start phase `t0` advanced by `start` steps. */
  method AddBody(output: array<real>, base: nat, amps: seq<real>, b: nat, spb: nat,
                 t: real, step: real, sin: real -> real, ghost t0: real)
    returns (tNext: real)
    requires b < |amps| && base + spb <= output.Length
    requires t == Phase(t0, step, BlockLayout(spb, b, |amps|).start)
    modifies output
    ensures tNext == Phase(t0, step, BlockLayout(spb, b, |amps|).end)
    ensures forall k :: base <= k < base + spb ==>
              output[k] == old(output[k]) + BodySample(amps, b, spb, t0, step, sin, k - base)
    ensures forall k :: 0 <= k < output.Length && !(base <= k < base + spb) ==>
              output[k] == old(output[k])
  {
    var l := BlockLayout(spb, b, |amps|);
    var blockAmp := amps[b];
    tNext := t;
    for i := l.start to l.end
      invariant tNext == Phase(t0, step, i)
      invariant forall k :: base + l.start <= k < base + i ==>
                  output[k] == old(output[k]) + BodySample(amps, b, spb, t0, step, sin, k - base)
      invariant forall k :: 0 <= k < output.Length && !(base + l.start <= k < base + i) ==>
                  output[k] == old(output[k])
    {
      output[base + i] := output[base + i] + Tone(blockAmp, tNext, sin);
      tNext := tNext + step;
    }
    assert forall k: nat :: !(l.start <= k < l.end) ==> BodySample(amps, b, spb, t0, step, sin, k) == 0.0;
  }

  /** The tail crossfade of block `b` (src/main.rs:180-189): step `j` writes sample
      `spb - j - 1`, fading from the midpoint with the next block at the very end
      of the chunk back to the block's amplitude, while the phase keeps running
      forwards from `end`. */
  method AddTail(output: array<real>, base: nat, amps: seq<real>, b: nat, spb: nat,
                 t: real, step: real, sin: real -> real, ghost t0: real)
    returns (tNext: real)
    requires b < |amps| && CrossfadeDefined(spb, amps)
    requires BlockLayout(spb, b, |amps|).tail != 0
    requires base + spb <= output.Length
    requires t == Phase(t0, step, BlockLayout(spb, b, |amps|).end)
    modifies output
    ensures tNext == Phase(t0, step, BlockLayout(spb, b, |amps|).end + InterpolationCount(spb))
    ensures forall k :: base <= k < base + spb ==>
              output[k] == old(output[k]) + TailSample(amps, b, spb, t0, step, sin, k - base)
    ensures forall k :: 0 <= k < output.Length && !(base <= k < base + spb) ==>
              output[k] == old(output[k])
  {
    var ic := InterpolationCount(spb);
    ghost var end := BlockLayout(spb, b, |amps|).end;
    var blockAmp := amps[b];
    var nextAmp := Midpoint(amps[b + 1], blockAmp);
    tNext := t;
    for j := 0 to ic
      invariant tNext == Phase(t0, step, end + j)
      invariant forall k :: base + spb - j <= k < base + spb ==>
                  output[k] == old(output[k]) + TailSample(amps, b, spb, t0, step, sin, k - base)
      invariant forall k :: 0 <= k < output.Length && !(base + spb - j <= k < base + spb) ==>
                  output[k] == old(output[k])
    {
      var a := Crossfade(blockAmp, nextAmp, j, ic);
      output[base + spb - j - 1] := output[base + spb - j - 1] + Tone(a, tNext, sin);
      tNext := tNext + step;
    }
    assert forall k: nat :: k < spb - ic ==> TailSample(amps, b, spb, t0, step, sin, k) == 0.0;
  }

  /** One iteration of the block loop (src/main.rs:145-196): block `b` of the
      band, starting at phase `t`, added into its chunk, which starts at `base`. */
  method AddBlock(output: array<real>, base: nat, amps: seq<real>, b: nat, spb: nat,
                  t: real, step: real, sin: real -> real)
    returns (tNext: real)
    requires b < |amps| && CrossfadeDefined(spb, amps)
    requires base + spb <= output.Length
    modifies output
    ensures tNext == ReducedPhase(Phase(t, step, spb - BlockLayout(spb, b, |amps|).start))
    ensures forall k :: base <= k < base + spb ==>
              output[k] == old(output[k]) + BlockSample(amps, b, spb, t, step, sin, k - base)
    ensures forall k :: 0 <= k < output.Length && !(base <= k < base + spb) ==>
              output[k] == old(output[k])
  {
    var l := BlockLayout(spb, b, |amps|);
    var start, end := l.start, l.end;
    ghost var before := output[..];
    var u := t;
    if start != 0 {
      u := AddHead(output, base, amps, b, spb, u, step, sin);
    } else {
      assert forall k :: HeadSample(amps, b, spb, t, step, sin, k) == 0.0;
    }
    ghost var afterHead := output[..];
    u := AddBody(output, base, amps, b, spb, u, step, sin, t);
    ghost var afterBody := output[..];
    if end != spb - start {
      u := AddTail(output, base, amps, b, spb, u, step, sin, t);
    } else {
      assert forall k :: TailSample(amps, b, spb, t, step, sin, k) == 0.0;
    }
    assert u == Phase(t, step, spb - start);
    tNext := ReducePhase(u);
  }

  /** One iteration of the band loop (src/main.rs:137-197): the band's phase
      starts at `(freq_i * t_step * 10)^2`, and its amplitudes are zipped with the
      chunks of the buffer. */
  method AddBand(output: array<real>, sampleRate: real, band: Band, freqIndex: nat,
                 spb: nat, blockCount: nat, sin: real -> real)
    requires sampleRate != 0.0 && spb > 0 && CrossfadeDefined(spb, band.amplitudes)
    requires output.Length == spb * blockCount
    modifies output
    ensures forall k :: 0 <= k < output.Length ==>
              output[k] == old(output[k]) + BandSample(sampleRate, band, freqIndex, spb, blockCount, sin, k)
  {
    var amps := band.amplitudes;
    var t0 := InitialPhase(freqIndex, sampleRate);
    var step := PhaseStep(sampleRate, band.frequency);
    var t := t0;
    var n := if |amps| < blockCount then |amps| else blockCount;
    var b, done := 0, 0;
    while b < n
      invariant 0 <= b <= n && done == b * spb && done <= output.Length
      invariant t == BlockPhase(amps, spb, t0, step, b)
      invariant forall k :: 0 <= k < done ==>
                  output[k] == old(output[k]) + BandSample(sampleRate, band, freqIndex, spb, blockCount, sin, k)
      invariant forall k :: done <= k < output.Length ==> output[k] == old(output[k])
    {
      NextChunk(b, blockCount, spb, done);
      t := AddBlock(output, done, amps, b, spb, t, step, sin);
      forall k | done <= k < done + spb
        ensures output[k] == old(output[k]) + BandSample(sampleRate, band, freqIndex, spb, blockCount, sin, k)
      {
        BandSampleInBlock(sampleRate, band, freqIndex, spb, blockCount, sin, b, done, k);
      }
      b, done := b + 1, done + spb;
    }
    forall k | done <= k < output.Length
      ensures BandSample(sampleRate, band, freqIndex, spb, blockCount, sin, k) == 0.0
    {
      ZippedBlocksOnly(sampleRate, band, freqIndex, spb, blockCount, sin, b, k);
    }
  }

  /** `frequencies_to_waveform`: a zeroed buffer of `spb * block_count` samples,
      with every band added into it in order. The block count is the length of
      the first band. `freqs[0]` must exist, `chunks_mut(0)` panics, and a
      crossfade of one sample divides by zero. */
  method FrequenciesToWaveform(sampleRate: real, totalTime: real, freqs: seq<Band>, sin: real -> real)
    returns (out: seq<real>)
    requires sampleRate != 0.0 && |freqs| > 0
    requires SamplesPerBlock(sampleRate, totalTime, |freqs[0].amplitudes|) > 0
    requires AllCrossfadesDefined(SamplesPerBlock(sampleRate, totalTime, |freqs[0].amplitudes|), freqs)
    ensures |out| == SamplesPerBlock(sampleRate, totalTime, |freqs[0].amplitudes|) * |freqs[0].amplitudes|
    ensures forall k :: 0 <= k < |out| ==>
              out[k] == Waveform(sampleRate, freqs, |freqs|,
                                 SamplesPerBlock(sampleRate, totalTime, |freqs[0].amplitudes|),
                                 |freqs[0].amplitudes|, sin, k)
  {
    var blockCount := |freqs[0].amplitudes|;
    var spb := SamplesPerBlock(sampleRate, totalTime, blockCount);
    var output := new real[spb * blockCount](_ => 0.0);
    var i := 0;
    while i < |freqs|
      invariant 0 <= i <= |freqs|
      invariant output.Length == spb * blockCount
      invariant forall k :: 0 <= k < output.Length ==>
                  output[k] == Waveform(sampleRate, freqs, i, spb, blockCount, sin, k)
    {
      AddBand(output, sampleRate, freqs[i], i, spb, blockCount, sin);
      i := i + 1;
    }
    out := output[..];
  }
}
