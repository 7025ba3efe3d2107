# USB clock sampling and edge-countdown waveform, in Dafny

This project models the two pieces of logic in `scripts/timing.py`. That script simulates
sampling a USB-style square wave at a non-integer clock-to-sample ratio. It then derives a
pulse train from the samples. Plotting is not modelled.

- **Resampler** (`get_from_usb`, module `Resampler`). A source sequence of length L is
  resampled at a speed ratio r. The output has floor(L * r) samples, and output i holds
  source sample floor((i + offset) / r). The script computes with floats. The model
  represents the ratio as a fraction p/q and the clock offset as a fraction a/b, both over
  natural numbers, so the length is `(L * p) / q` and the index is
  `((i * b + a) * q) / (b * p)`. The script's ratio is 25/3 (`SPEED_RATIO`). The model
  proves these facts:
  - every index stays inside the source when the offset is below one tick;
  - indices never decrease;
  - with a ratio of at least one, consecutive outputs advance by at most one source sample.

  The script's final numpy indexing step can fail, and the model gives it a `Result`: an
  index past the end gives `OutOfBounds`.
- **Edge-countdown generator** (module `Waveform`). The script runs this loop inline at
  module level. Here it is the method `GenerateWave`, and its loop body is the transition
  function `Step` on the script's two variables `found` and `count`. Let k be the first
  truthy sample. The method is proved to emit exactly one bit per sample, and a 1 exactly
  at k + 4, k + 12, k + 20 and so on. With no truthy sample the whole wave is 0.
- **Reference run** (module `ReferenceRun`). This covers the script's concrete inputs:
  the alternating 11-sample source, the ratio 25/3 and the six panel offsets i/6. The
  model proves that every panel has 91 samples. The first 1 is at output 9 for offsets 0
  and 1/6, and at output 8 for the other four offsets. The pulses therefore start at
  output 13 or output 12.

The sample that sets `found` does not decrement `count`. The count therefore runs 4, 3,
2, 1, 0 on the following samples, and the first pulse falls four samples after the edge
(scripts/timing.py:46-50).

## Model

| member | source | states |
|---|---|---|
| `Resampler.OutputLength` | scripts/timing.py:11 | the output length n is floor(L * p/q): n * q <= L * p < (n + 1) * q |
| `Resampler.SourceIndex` | scripts/timing.py:12 | the index k held by output i is floor((i + a/b) / (p/q)): k * b * p <= (i * b + a) * q < (k + 1) * b * p |
| `Resampler.IndexMonotone` | scripts/timing.py:12 | i <= j implies index(i) <= index(j), the sample-and-hold ordering |
| `Resampler.IndexInBounds` | scripts/timing.py:11-13 | for an offset in [0, 1), every output index is below the source length |
| `Resampler.IndexStep` | scripts/timing.py:6-12 | for a ratio of at least one, like 25/3, index(i + 1) is index(i) or index(i) + 1, so no source sample is skipped |
| `Resampler.FirstIndexIsZero` | scripts/timing.py:12 | an offset below the ratio, zero included, makes output 0 hold source sample 0 |
| `Resampler.Held` | scripts/timing.py:13 | when all indices are in range, the output has floor(L * r) elements and element i is d[index(i)] |
| `Resampler.GetFromUsb` | scripts/timing.py:10-13 | succeeds exactly when every index is inside the source; on success it has floor(L * r) elements with element i equal to d[index(i)]; on failure it reports an index at or past the end |
| `Resampler.GetFromUsbSucceeds` | scripts/timing.py:11-13 | for every source and every offset in [0, 1) the resampler succeeds |
| `Resampler.GetFromUsbAsWritten` | scripts/timing.py:12-13 | under numpy semantics: fails with a non-integer index array exactly when the output length is 0, and otherwise agrees with GetFromUsb |
| `Resampler.EmptySourceAsWritten` | scripts/timing.py:12-13 | an empty source fails as written but resamples to the empty sequence in the corrected model |
| `Waveform.Step` | scripts/timing.py:46-49 | count stays in [0, 7]; found becomes true on the first truthy sample and never reverts; while counting, count decreases by one modulo 8; while waiting, count is unchanged |
| `Waveform.Output` | scripts/timing.py:50 | the appended bit is 0 or 1, and it is 1 exactly when count is 0 |
| `Waveform.FirstTruthy` | scripts/timing.py:48 | returns the least position holding a non-zero sample, or None exactly when all samples are zero |
| `Waveform.GenerateWave` | scripts/timing.py:42-50 | starting from `START` (`found` false, count 4, lines 43-44), the wave has one bit per sample, including for the empty input; bit j is 1 exactly when j = k + 4 + 8m, where k is the first truthy position |
| `Waveform.CountdownZero` | scripts/timing.py:47-50 | (4 - m) mod 8 is 0 exactly when m = 4 + 8t; GenerateWave uses it with m the number of steps since the edge, after its loop invariant fixes the count at (4 - m) mod 8 |
| `Waveform.NoEdgeNoPulse` | scripts/timing.py:43-50 | an all-zero input has no pulse position, so by GenerateWave its wave is all zero (GenerateWave's loop invariant keeps `found` false and the count at 4 until the first truthy sample) |
| `Waveform.FirstPulse` | scripts/timing.py:44-50 | the first pulse falls 4 samples after the first truthy sample, and none falls before it |
| `Waveform.PulsePeriod` | scripts/timing.py:47-50 | after any pulse, a later position pulses exactly when it lies a multiple of 8 samples on |
| `Waveform.PulseDependsOnlyOnEdge` | scripts/timing.py:45-50 | extending a sample sequence that already contains a truthy sample changes no pulse |
| `ReferenceRun.PanelOffset` | scripts/timing.py:34-39 | the offset of panel i < 6 is the fraction i/6, which lies in [0, 1) |
| `ReferenceRun.PanelSampleCount` | scripts/timing.py:30-39 | each of the six panels resamples the 11-sample source into floor(11 * 25/3) = 91 samples without error |
| `ReferenceRun.PanelFirstEdge` | scripts/timing.py:30-39 | the first 1 sample of panel i is at output 9 for i < 2 and at output 8 otherwise |
| `ReferenceRun.ZeroOffsetRun` | scripts/timing.py:30-50 | at offset 0, outputs 0 to 8 are 0 and output 9 is 1 (floor(27/25) = 1), and pulses fall at 13 + 8m |
| `ReferenceRun.ShortTrace` | scripts/timing.py:42-50 | a 16-sample input whose first sample is truthy pulses at positions 4 and 12 only |
| `ReferenceRun.Panel` | scripts/timing.py:30-50 | on the source `USB` = 0, 1, 0, ..., 0 of length 11 (line 30), one iteration of the driver loop yields 91 samples and a 91-bit wave whose pulses start at 13 (offsets 0, 1/6) or 12 (the rest), period 8 |

## Left out

- Plotting is not modelled: `plot_usb`, `plot_waveform`, the subplot grid, `ax.plot` and `plt.show` only display sequences.
- Floating point is not modelled. The ratio and offset are exact fractions. The double nearest to 25/3 is slightly larger than 25/3, so the script's float floor division sometimes gives an index one below the exact one. Across the six panels of the reference run this happens at offset 0 for outputs 25, 50 and 75 (2, 5, 8 instead of 3, 6, 9), at offset 2/6 for outputs 58 and 83 (6, 9 instead of 7, 10) and at offset 4/6 for output 41 (4 instead of 5). So in those three panels the script's samples differ from what `ReferenceRun.Panel` states at those outputs. The waves are unaffected, because the first 1 sample (output 8 or 9) is the same in float, and the generator looks only at that edge.
- The default argument `clk_offset=0` of `get_from_usb` is not modelled separately. The script always passes the offset, and a zero offset is `Fraction(0, 1)`.
- Negative clock offsets are not modelled: the offset is a non-negative fraction. numpy would read a negative index from the end of the source.
- numpy arrays are modelled as sequences, and the `int(...)` cast of a non-negative whole float as the identity. Samples are integers, and a truthy sample is a non-zero one.
- Determinism is not stated as a lemma. It holds by construction, because every resampler member is a function.

## Findings

| source | as written | input that shows it | evidently intended | confidence | as-written member | corrected member |
|---|---|---|---|---|---|---|
| scripts/timing.py:12-13 | when floor(len(d) * ratio) is 0, `np.array([])` is a float array, and indexing `np.array(d)` with it raises IndexError | `d = []`, the only such source at ratio 25/3 (in general, any source with L * p < q) | an empty source yields an empty sample sequence, just as the generator accepts an empty input | medium, not executed | `Resampler.EmptySourceAsWritten` | `Resampler.GetFromUsb` |
