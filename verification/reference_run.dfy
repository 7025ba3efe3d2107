/**
  The reference run of scripts/timing.py: the alternating 11-sample source, the speed
  ratio 25/3 and six panels with clock offsets 0/6, 1/6, ..., 5/6.
*/
module ReferenceRun {
  import opened Wrappers
  import opened Resampler
  import opened Waveform

  /** The source pattern 0, 1, 0, 1, ..., 0 of length 11. */
  const USB: seq<int> := seq(11, i => i % 2)

  /** The number of panels, one per clock offset. */
  const PANELS: nat := 6

  /** The clock offset of panel i: i / 6 of an output tick. */
  function PanelOffset(i: nat): (offset: Fraction)
    requires i < PANELS
    ensures IsOffset(offset) && offset.num < offset.den
    ensures offset.num * PANELS == i * offset.den
  {
    Fraction(i, PANELS)
  }

  /** Every panel's resampling succeeds and yields floor(11 * 25/3) = 91 samples. */
  lemma PanelSampleCount(i: nat)
    requires i < PANELS
    ensures GetFromUsb(USB, SPEED_RATIO, PanelOffset(i)).Success?
    ensures |GetFromUsb(USB, SPEED_RATIO, PanelOffset(i)).value| == 91
  {
    GetFromUsbSucceeds(USB, SPEED_RATIO, PanelOffset(i));
  }

  /**
    The edge the generator locks onto in panel i: samples up to 50/6 - i/6 ticks hold the
    first (zero) source sample, so the first 1 appears at output 9 for offsets 0 and 1/6
    and at output 8 for the other four.
  */
  lemma PanelFirstEdge(i: nat)
    requires i < PANELS
    ensures var r := GetFromUsb(USB, SPEED_RATIO, PanelOffset(i));
            r.Success? && FirstTruthy(r.value) == Some(if i < 2 then 9 else 8)
  {
    PanelSampleCount(i);
    var samples := GetFromUsb(USB, SPEED_RATIO, PanelOffset(i)).value;
    var edge := if i < 2 then 9 else 8;
    forall j | 0 <= j < edge ensures samples[j] == 0 {
      assert Instant(j, SPEED_RATIO, PanelOffset(i)) == (j * 6 + i) * 3 < 150;
      assert SourceIndex(j, SPEED_RATIO, PanelOffset(i)) == 0;
    }
    assert 150 <= Instant(edge, SPEED_RATIO, PanelOffset(i)) < 300;
    assert SourceIndex(edge, SPEED_RATIO, PanelOffset(i)) == 1;
  }

  /**
    With no clock offset, outputs 0 to 8 hold source sample 0 and output 9 holds source
    sample 1 (floor(27 / 25) = 1), so the wave pulses at 13, 21, ..., 85.
  */
  lemma ZeroOffsetRun(j: nat)
    requires j < 91
    ensures var r := GetFromUsb(USB, SPEED_RATIO, PanelOffset(0));
            r.Success? && |r.value| == 91 &&
            (forall i :: 0 <= i < 9 ==> r.value[i] == 0) && r.value[9] == 1 &&
            (PulseAt(r.value, j) <==> 13 <= j && (j - 13) % 8 == 0)
  {
    PanelFirstEdge(0);
  }

  /** A 16-sample input whose first sample is truthy pulses at positions 4 and 12 only. */
  lemma ShortTrace(s: seq<int>, j: nat)
    requires |s| == 16 && s[0] != 0 && j < 16
    ensures PulseAt(s, j) <==> j == 4 || j == 12
  {
    FirstPulse(s, 0, j);
  }

  /**
    One panel of the script's driver loop: resample the source at offset i/6, then run
    the generator over the samples. The wave pulses every 8 samples from output 13
    (offsets 0 and 1/6) or output 12 (the other four offsets).
  */
  method Panel(i: nat) returns (samples: seq<int>, wave: seq<int>)
    requires i < PANELS
    ensures GetFromUsb(USB, SPEED_RATIO, PanelOffset(i)) == Success(samples)
    ensures |samples| == |wave| == 91
    ensures forall j :: 0 <= j < 91 ==>
      var firstPulse := if i < 2 then 13 else 12;
      wave[j] == if firstPulse <= j && (j - firstPulse) % 8 == 0 then 1 else 0
  {
    PanelFirstEdge(i);
    PanelSampleCount(i);
    samples := GetFromUsb(USB, SPEED_RATIO, PanelOffset(i)).value;
    wave := GenerateWave(samples);
  }
}
