# inverse_fft in Dafny

`inverse_fft` turns a greyscale image into sound. Each row of the image becomes one
frequency band: the top row gets the highest frequency and the bottom row the start of the
frequency range. Each pixel of a row is one time block of that band. Its 8-bit intensity is
read as a decibel level between the two ends of a colour range, and then turned into a linear
amplitude `sqrt(10^(dB/10))`.

The synthesiser cuts the output buffer into `block_count` blocks of `samples_per_block`
samples each. For every band, block `b` adds the sine `amp * sin(t)` into its chunk, and the
running phase `t` advances by `2 * PI * f / sample_rate` per sample written. A block next to
another block fades linearly over `interpolation_count = samples_per_block / 10` samples: the
head towards the previous block's midpoint amplitude, the tail towards the next one's. After
each block, whole cycles of `2 * PI` are taken off the phase. Finally the buffer is scaled so
that its loudest sample has magnitude 0.9.

The model has one module per concern:

- `Numeric`: `u8`, `Range`, `2 * PI`, `as usize`, `abs`, `max`.
- `ImageData`: the image and its rows.
- `Amplitude`: `pixel_value_to_amplitude`.
- `Spectrum`: `image_to_frequencies`.
- `Normalise`: the in-place normalisation over an `array<real>`.
- `SynthesisSpec`: the per-sample description of the synthesis and its properties.
- `Synthesis`: the head, body, tail and phase-reduction loops over an `array<real>`. Each loop
  is proved against `SynthesisSpec`.

`sin`, `powf` and `sqrt` are function parameters. Lemmas that need their shape say so:
`Periodic`, `SineBounded`, `PowerOfTen` and `SquareRoot`.

Points where the code behaves in a way a reader might not expect, all modelled as written:

- **Unwritten samples.** `end = spb - tail - start` is used as an index from the block
  start, so the body of a block with a head stops `start` samples short of where the
  tail begins (`LayoutPartition`). A block with neighbours on both sides leaves those
  samples unwritten just before its tail (`GapIsSilent`). The last block of a band has a
  head and no tail, so it leaves its final `interpolation_count` samples unwritten
  (`LastBlockEndIsSilent`). A band with two or more blocks therefore falls silent for the
  last `interpolation_count` samples of its blocks. When the band has as many blocks as
  the buffer, those are the last samples of the output (`BandEndIsSilent`).
- **Tail direction.** The tail is written at descending indices while the phase keeps running
  forwards.
- **Unequal band lengths.** Bands of unequal length are not rejected. The `zip` with the
  output chunks stops at the shorter of the two (`ZippedBlocksOnly`).
- **Block size.** `samples_per_block` is truncated by `as usize`. With no blocks it saturates
  (`SamplesPerBlock`).
- **One-sample crossfade.** With `interpolation_count == 1` the code computes
  `p = 0 / 0`, so the model requires that this case cannot arise (`CrossfadeDefined`).
- **Silent buffer.** Normalising an all-silent buffer divides by zero. It is excluded by a
  precondition, and `PeakSign` characterises exactly which buffers are excluded.

## Model

| member | source | states |
|---|---|---|
| Numeric.AsUsize | src/main.rs:130 | a float cast to usize is 0 at or below zero, and otherwise the largest whole number not above it |
| Numeric.Abs | src/main.rs:119 | `f64::abs`: a non-negative value equal to the operand or its negation |
| Numeric.Max | src/main.rs:119 | `f64::max` on non-NaN operands: at least both operands, and equal to one of them |
| ImageData.Chunks | src/main.rs:60-61 | `chunks(w)` yields non-empty pieces of at most `w` bytes, and every piece but the last is full |
| ImageData.Height | src/main.rs:58 | `data.len() / width`: the number of whole rows, so `height * width` bytes fit in the data and one more row does not |
| ImageData.Width | src/main.rs:59 | the stored row width |
| ImageData.Rows | src/main.rs:60-61 | `data.chunks(width)`: the number of rows is the byte count divided by the width, rounded up |
| ImageData.ChunkAt | src/main.rs:60-61 | piece `i` is the slice of the data that starts at `i * w` and is cut off at the end of the data |
| ImageData.ChunkCount | src/main.rs:60-61 | the number of pieces is the byte count divided by `w`, rounded up |
| ImageData.ChunksOfWholeRows | src/main.rs:60-61 | `h * w` bytes make exactly `h` full pieces |
| ImageData.WholeRows | src/main.rs:58 | if the byte count is a multiple of the width, it is exactly `width * height()` |
| ImageData.RowsOfFullImage | src/main.rs:58-61 | for an image of `width * h` bytes, `height()` is `h`, `rows()` yields `h` rows, and row `i` is bytes `i*width .. (i+1)*width` |
| ImageData.RowCountOfFullImage | src/main.rs:58-61 | for an image of `width * h` bytes, `height()` and the number of rows are both `h`, and every row is `width` bytes |
| ImageData.RowOfFullImage | src/main.rs:58-61 | row `i < h` of a `width * h` image lies inside the data, at the `i`-th run of `width` bytes |
| Amplitude.Decibels | src/main.rs:88 | pixel 0 maps to the start of the colour range, and pixel 255 to its end |
| Amplitude.PixelValueToAmplitude | src/main.rs:86-95 | of the two branches only the power branch is live: the amplitude is `sqrt(10^(dB/10))` |
| Amplitude.DecibelsWithinRange | src/main.rs:88 | the decibel value lies between the two ends of the colour range, whichever way round they are given |
| Amplitude.DecibelsMonotone | src/main.rs:88 | on an ascending range, a brighter pixel never has fewer decibels, and strictly more when both the range and the pixel values increase strictly |
| Amplitude.AmplitudeMonotone | src/main.rs:86-95 | with a real power and square root, amplitudes are non-negative on any colour range, and non-decreasing in the pixel value on an ascending one |
| Amplitude.FullScaleIsUnitAmplitude | src/main.rs:86-95 | a full-intensity pixel on a range ending at 0 dB has amplitude exactly 1 |
| Spectrum.RowAmplitudes | src/main.rs:106-108 | one amplitude per pixel of the row, in pixel order, each given by `pixel_value_to_amplitude` |
| Spectrum.FrequencyStep | src/main.rs:99 | `fstep`: `height` steps span exactly the frequency range |
| Spectrum.RowFrequency | src/main.rs:103 | computes `start + (height - 1 - i) * fstep`; its placement of the rows is stated by `BottomRowAtRangeStart`, `TopRowOneStepBelowRangeEnd` and `RowFrequenciesDecrease` |
| Spectrum.ImageToFrequencies | src/main.rs:97-114 | one band per image row, in row order. Row `i`'s band has frequency `start + (height-1-i) * fstep`, and its amplitudes are its pixels' amplitudes, `width` of them |
| Spectrum.BottomRowAtRangeStart | src/main.rs:99-103 | the bottom row has exactly the start frequency of the range |
| Spectrum.TopRowOneStepBelowRangeEnd | src/main.rs:99-103 | the top row lies exactly one frequency step below the end of the range |
| Spectrum.RowFrequenciesDecrease | src/main.rs:99-103 | on an ascending range, frequencies strictly decrease from the top row down and stay in `[start, end)` |
| Spectrum.TwoRowExample | src/main.rs:86-114 | a one-pixel-wide image of two rows over 100..200 Hz gives bands at 150 Hz and 100 Hz; a white pixel on -20..0 dB has amplitude 1, a black one -20 dB |
| Normalise.PeakFoldIsMax | src/main.rs:119 | the fold of `abs` with `max` is at least its seed and every magnitude, and it equals the seed or one of the magnitudes |
| Normalise.PeakFold | src/main.rs:119 | computes the left-to-right `fold` of `max` over the magnitudes; its meaning is stated by `PeakFoldIsMax` |
| Normalise.Peak | src/main.rs:119 | computes `max_a`, the fold seeded with -1000; its meaning is stated by `PeakIsMaxMagnitude` and `PeakSign` |
| Normalise.Normalised | src/main.rs:121-122 | computes the buffer scaled by `0.9 / max_a`; its meaning is stated by `NormalisedPeak` and `NormaliseIdempotent` |
| Normalise.PeakIsMaxMagnitude | src/main.rs:119 | on a non-empty buffer `max_a` is the largest magnitude and is attained by a sample; on an empty one it is the seed -1000 |
| Normalise.Scale | src/main.rs:122 | scaling keeps the length and multiplies every sample by the factor |
| Normalise.ScaleInPlace | src/main.rs:122 | the loop leaves every element multiplied by the scale factor |
| Normalise.Normalise | src/main.rs:115-123 | the buffer becomes its samples multiplied by `0.9 / max_a` |
| Normalise.PeakSign | src/main.rs:119-121 | `max_a` is positive iff some sample is non-zero, zero iff the buffer is non-empty and silent, and negative iff it is empty |
| Normalise.PeakFoldMapped | src/main.rs:119 | a map of magnitudes that distributes over `max` carries the fold of one buffer to the fold of the other |
| Normalise.PeakMapped | src/main.rs:119 | the same for the peak of a non-empty buffer, when the map keeps 0 fixed |
| Normalise.PeakOfScaled | src/main.rs:119-122 | scaling by a positive factor scales the peak by the same factor |
| Normalise.NormalisedPeak | src/main.rs:115-123 | after normalisation the peak magnitude is exactly 0.9, so every sample lies in [-1, 1] as the PCM writer asserts (line 47) |
| Normalise.NormaliseIdempotent | src/main.rs:115-123 | normalising a normalised buffer changes nothing |
| SynthesisSpec.SamplesPerBlock | src/main.rs:129-130 | with blocks it is the truncated quotient `sample_rate * total_time / block_count`; with none it is non-zero exactly when the numerator is positive (the +inf quotient saturates) |
| SynthesisSpec.InterpolationCount | src/main.rs:132 | the crossfade length is a tenth of a block, rounded down |
| SynthesisSpec.InitialPhase | src/main.rs:141 | `(freq_i * t_step * 10)^2`: never negative, and zero exactly for the first band |
| SynthesisSpec.PhaseStep | src/main.rs:133-142 | `t_step * 2 * PI * f`: the phase advance of one sample period, so `sample_rate` steps make `2 * PI * f` |
| SynthesisSpec.InHead | src/main.rs:163-166 | the indices the head loop writes: `0 .. interpolation_count` of a block with `start != 0` |
| SynthesisSpec.InBody | src/main.rs:174 | the indices the body loop writes: `start .. end` |
| SynthesisSpec.InTail | src/main.rs:180-186 | the indices the tail loop writes: `spb - j - 1` for `j < interpolation_count`, i.e. the last `interpolation_count` samples of a block with a tail |
| SynthesisSpec.Tone | src/main.rs:169 | one written sample: `amplitude * sin(t)` |
| SynthesisSpec.Phase | src/main.rs:166-187 | the phase after `n` executions of `t += t_step`, one per written sample; `PhaseClosedForm` gives its closed form |
| SynthesisSpec.StepsBefore | src/main.rs:145-189 | the number of phase steps taken by the blocks before block `b`, each taking `spb - start`; `BlockSteps` and `BlockPhaseUnwound` use it |
| SynthesisSpec.Midpoint | src/main.rs:164 | `(amps[block_idx - 1] + block_amp) / 2`, and the same at line 181: the edge amplitude lies halfway between the neighbour and the block amplitude |
| SynthesisSpec.Crossfade | src/main.rs:167-168 | computes `block_amp * p + edge_amp * (1 - p)` with `p = i / (ic - 1)`, as also at lines 184-185; its end points and range are stated by `CrossfadeEndpoints` and `CrossfadeBetween` |
| SynthesisSpec.ReducedPhase | src/main.rs:193-195 | computes the phase after the reduction loop; its meaning is stated by `ReducedPhaseRange` |
| SynthesisSpec.HeadSample | src/main.rs:163-172 | computes what the head loop adds to one sample of the chunk: the sine crossfaded from the previous midpoint, on the first `ic` samples of a block with a head, else 0 |
| SynthesisSpec.BodySample | src/main.rs:174-178 | computes what the body loop adds to one sample: the sine at the block amplitude on `start .. end`, else 0 |
| SynthesisSpec.TailSample | src/main.rs:180-189 | computes what the tail loop adds to one sample: the sine crossfaded towards the next midpoint on the last `ic` samples of a block with a tail, at the phase of step `end + (spb - 1 - k)`, else 0 |
| SynthesisSpec.BlockSample | src/main.rs:161-189 | computes one block's contribution to one sample: the sum of head, body and tail; `LayoutPartition` states that at most one of them is non-zero |
| SynthesisSpec.BlockPhase | src/main.rs:141-195 | computes the phase at the start of block `b`: every earlier block advanced it `spb - start` times and then reduced it; `BlockPhaseUnwound` relates it to the unreduced phase |
| SynthesisSpec.BandSample | src/main.rs:137-196 | computes one band's contribution to output sample `k`: block `k / spb`'s contribution at offset `k % spb`, or 0 past the zipped blocks |
| SynthesisSpec.Waveform | src/main.rs:135-197 | computes output sample `k` after the first `n` bands: the sum of their contributions on a zeroed buffer; `WaveformBounded` bounds it |
| SynthesisSpec.BlockLayout | src/main.rs:148-159 | the body bound never underflows, and head length, body bound and tail length add up to `samples_per_block` |
| SynthesisSpec.LayoutPartition | src/main.rs:148-189 | head, body and tail never write the same sample, and a sample is written by none of them exactly when the block has a head and the sample is among the `start` samples just before the tail |
| SynthesisSpec.GapIsSilent | src/main.rs:148-189 | in a block with neighbours on both sides, the `interpolation_count` samples before the tail receive nothing from the band |
| SynthesisSpec.LastBlockEndIsSilent | src/main.rs:148-189 | the last block of a band with two or more blocks receives nothing on its final `interpolation_count` samples |
| SynthesisSpec.LoneBlockIsAllBody | src/main.rs:148-159 | a block with no crossfade on either side is one body spanning the whole block |
| SynthesisSpec.CrossfadeEndpoints | src/main.rs:166-168 | the crossfade starts at the neighbour's midpoint amplitude and ends at the block amplitude |
| SynthesisSpec.CrossfadeBetween | src/main.rs:166-168 | every crossfade amplitude lies between the midpoint and the block amplitude |
| SynthesisSpec.PhaseClosedForm | src/main.rs:170-187 | `n` steps of `t += t_step` reach `t0 + n * t_step` |
| SynthesisSpec.ReducedPhaseRange | src/main.rs:193-195 | the reduction removes a whole number of cycles, leaves at most `2 * PI`, keeps a phase already in range, and keeps a positive phase positive |
| SynthesisSpec.PeriodicTurns | src/main.rs:193-195 | a `2 * PI`-periodic sine does not hear whole cycles being taken off |
| SynthesisSpec.BlockPhaseUnwound | src/main.rs:141-195 | up to whole cycles, every block starts at the phase reached by stepping from the band's initial phase without any reduction |
| SynthesisSpec.BlockPhaseInaudible | src/main.rs:169-195 | with a periodic sine, every sample sounds as though the phase were never reduced |
| SynthesisSpec.BlockSteps | src/main.rs:163-189 | a block advances the phase once per sample it writes, `samples_per_block - start` times in all |
| SynthesisSpec.BandSampleInBlock | src/main.rs:145 | a sample inside block `b` of the buffer receives block `b`'s contribution at its offset within the chunk |
| SynthesisSpec.BandEndIsSilent | src/main.rs:145-189 | a band with two or more blocks contributes nothing from `interpolation_count` samples before the end of its last block onwards |
| SynthesisSpec.ZippedBlocksOnly | src/main.rs:145 | past the shorter of the band's amplitudes and the buffer's blocks, the band contributes nothing |
| SynthesisSpec.SingleBlockIsPureTone | src/main.rs:137-189 | the first band of a one-block image is the plain sine `a * sin(k * 2 * PI * f / sample_rate)` |
| SynthesisSpec.BlockSampleBounded | src/main.rs:163-189 | with a sine bounded by 1, a block never adds more than the largest amplitude magnitude of its band |
| SynthesisSpec.BandSampleBounded | src/main.rs:137-196 | the same bound holds for every sample of the band, in any block and at any phase |
| SynthesisSpec.WaveformBounded | src/main.rs:127-199 | before normalisation, `n` bands whose amplitudes are at most `m` in magnitude add up to at most `n * m` in every sample |
| SynthesisSpec.WaveformWithinSum | src/main.rs:137-197 | each band adds at most `m` in magnitude to the running sum, so `n` bands stay within `m` added `n` times |
| SynthesisSpec.HeadCrossfadeExample | src/main.rs:163-172 | after a block of amplitude 1, a block of 0.5 fades in from 0.75 to 0.5 |
| Synthesis.ReducePhase | src/main.rs:193-195 | the loop ends with the phase less whole cycles, at most `2 * PI` (the properties of `ReducedPhase` proved in `ReducedPhaseRange`) |
| Synthesis.AddHead | src/main.rs:163-172 | the head loop adds `HeadSample` to every sample of the chunk: over the first `interpolation_count` samples, a sine fading from the midpoint with the previous block to the block amplitude, and nothing elsewhere in the chunk. It leaves the rest of the buffer alone and advances the phase `interpolation_count` steps |
| Synthesis.AddBody | src/main.rs:174-178 | the body loop adds `BodySample` to the chunk: the constant-amplitude sine on `start .. end`, at the phase reached after as many steps from the block start, and nothing elsewhere. It advances the phase to `end` steps |
| Synthesis.AddTail | src/main.rs:180-189 | the tail loop adds `TailSample` to the chunk: step `j` adds to sample `spb - 1 - j` a crossfade from the next block's midpoint, at the phase reached after `end + j` steps, and nothing is added elsewhere |
| Synthesis.AddBlock | src/main.rs:145-196 | one block adds exactly `BlockSample`, the sum of the three stretches, to every sample of its chunk, leaves every other sample alone, and hands on the reduced phase |
| Synthesis.AddBand | src/main.rs:137-197 | one band adds its contribution `BandSample` to every sample of the buffer |
| Synthesis.FrequenciesToWaveform | src/main.rs:127-199 | the buffer has `samples_per_block * block_count` samples, and each is the sum over all bands of their contributions |

## Left out

- `main`, `load_image`, the logging macros and writing `out.pcm` are not modelled. They are I/O, or calls into the `image`, `log` and `byteorder` crates.
- The cast `(sample * 0x7FFF) as i16` is not modelled. `NormalisedPeak` proves the `abs() <= 1.0` assertion that guards it.
- Floating point is modelled as exact real arithmetic. There is no rounding, no NaN or infinity, and no `f32`/`f64` conversions (`value as f32`, `total_time as f64`, `db as f64`). Where the source would produce NaN or divide by zero, the model requires that case away instead.
- `f64::sin`, `f64::powf` and `f64::sqrt` are parameters. `(x).powi(2)` is modelled as `x * x`.
- `Numeric.AsUsize`: does not saturate at `usize::MAX` for finite quotients larger than it. Only the zero-block case (an infinite quotient) saturates.
- Integer overflow of `usize` arithmetic is not modelled, such as `samples_per_block * block_count` or `freq_i as f64` of very large values.
- `Normalise.Normalise`: requires a non-zero peak. An all-silent buffer would be filled with NaN.
- `SynthesisSpec.PeriodicTurns`: `Periodic` takes the decimal constant for `PI * 2.0` as the exact period of `sin`. The real sine has period 2π, so the small drift each reduction at src/main.rs:193-195 causes (2π minus that constant) is not modelled.
- `SynthesisSpec.BlockPhaseInaudible`: rests on the same idealised `Periodic` as `PeriodicTurns`, so it too ignores the per-reduction drift of 2π minus the `PI * 2.0` constant.
- `Synthesis.FrequenciesToWaveform` has three preconditions:
  - it requires a non-empty band list, because `freqs[0]` panics;
  - it requires a non-zero block size, because `chunks_mut(0)` panics;
  - it requires that no band with two or more blocks have a one-sample crossfade, because that divides 0 by 0.
- `Synthesis.FrequenciesToWaveform`: `sample_rate != 0` is required explicitly. It already follows from a non-zero block size.
- `Spectrum.ImageToFrequencies`: requires a positive width and a byte count that is a whole number of rows, as `load_image` builds it. A zero width divides by zero. A short last row makes `height() - 1 - i` underflow.
- The `timerange` argument of `image_to_frequencies` is unused in the source and has no effect in the model.
- `f64::max` on NaN operands is not modelled.
