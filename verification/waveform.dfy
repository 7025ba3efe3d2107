/**
  The edge-countdown waveform generator of scripts/timing.py (the loop over `samples`
  that builds `wave`). Samples are the script's 0/1 integers; a sample is truthy when
  it is non-zero, as in Python's `elif s:`. The generator waits for the first truthy
  sample, then counts down from 4 modulo 8 and emits 1 exactly when the count is 0.
*/
module Waveform {
  import opened Wrappers

  /** The loop's two variables: `found` (an edge was seen) and `count`. */
  datatype Generator = Generator(found: bool, count: int)

  /** The state before the first sample: no edge seen, count 4. */
  const START: Generator := Generator(false, 4)

  /** One iteration of the loop, before the output bit is appended. */
  function Step(g: Generator, sample: int): (h: Generator)
    requires 0 <= g.count <= 7
    ensures 0 <= h.count <= 7
    ensures h.found == (g.found || sample != 0)
    ensures g.found ==> h.count == (g.count - 1) % 8
    ensures !g.found ==> h.count == g.count
  {
    if g.found then
      Generator(true, if g.count == 0 then 7 else g.count - 1)
    else if sample != 0 then
      Generator(true, g.count)
    else
      g
  }

  /** The bit the loop appends for a state. */
  function Output(g: Generator): (bit: int)
    ensures bit == 0 || bit == 1
    ensures bit == 1 <==> g.count == 0
  {
    if g.count == 0 then 1 else 0
  }

  /** The position of the first truthy sample, if any. */
  function FirstTruthy(s: seq<int>): (r: Option<nat>)
    ensures r.Some? ==> r.value < |s| && s[r.value] != 0 &&
                        forall j :: 0 <= j < r.value ==> s[j] == 0
    ensures r.None? ==> forall j :: 0 <= j < |s| ==> s[j] == 0
  {
    if s == [] then None
    else if s[0] != 0 then Some(0)
    else match FirstTruthy(s[1..])
      case None => None
      case Some(k) => Some(k + 1)
  }

  /**
    The pulse schedule: with k the first truthy position, a pulse falls at
    k + 4, k + 12, k + 20, ... and nowhere else.
  */
  predicate PulseAt(s: seq<int>, j: nat)
  {
    match FirstTruthy(s)
    case None => false
    case Some(k) => k + 4 <= j && (j - k - 4) % 8 == 0
  }

  /** After m countdown steps from 4, the count is 0 exactly when m is 4 more than a multiple of 8. */
  lemma CountdownZero(m: nat)
    ensures (4 - m) % 8 == 0 <==> 4 <= m && (m - 4) % 8 == 0
  {}

  /** The waveform of `samples`: one bit per sample, 1 exactly on the pulse schedule. */
  method GenerateWave(samples: seq<int>) returns (wave: seq<int>)
    ensures |wave| == |samples|
    ensures forall j :: 0 <= j < |samples| ==> wave[j] == if PulseAt(samples, j) then 1 else 0
  {
    ghost var first := FirstTruthy(samples);
    wave := [];
    var g := START;
    for n := 0 to |samples|
      invariant |wave| == n
      invariant 0 <= g.count <= 7
      invariant g.found <==> first.Some? && first.value < n
      invariant !g.found ==> g.count == 4
      invariant g.found ==> g.count == (5 + first.value - n) % 8
      invariant forall j :: 0 <= j < n ==> wave[j] == if PulseAt(samples, j) then 1 else 0
    {
      g := Step(g, samples[n]);
      if g.found {
        CountdownZero(n - first.value);
      }
      wave := wave + [Output(g)];
    }
  }

  // ---------------------------------------------------------------------------
  // Properties of the pulse schedule

  /** Without a truthy sample the generator never leaves the waiting state: the wave is all zero. */
  lemma NoEdgeNoPulse(s: seq<int>, j: nat)
    requires forall i :: 0 <= i < |s| ==> s[i] == 0
    ensures !PulseAt(s, j)
  {
  }

  /** The first pulse falls four samples after the edge, and none before it. */
  lemma FirstPulse(s: seq<int>, k: nat, j: nat)
    requires k < |s| && s[k] != 0
    requires forall i :: 0 <= i < k ==> s[i] == 0
    ensures PulseAt(s, k + 4)
    ensures j < k + 4 ==> !PulseAt(s, j)
  {
  }

  /** Once a pulse has fallen, the later pulses are exactly those a multiple of 8 samples on. */
  lemma PulsePeriod(s: seq<int>, i: nat, j: nat)
    requires PulseAt(s, i) && i <= j
    ensures PulseAt(s, j) <==> (j - i) % 8 == 0
  {
    var k := FirstTruthy(s).value;
    assert (j - k - 4) == (j - i) + (i - k - 4);
  }

  /** The wave depends on the samples only through the position of the first truthy one. */
  lemma PulseDependsOnlyOnEdge(s: seq<int>, t: seq<int>, j: nat)
    requires |s| <= |t| && s == t[..|s|]
    requires exists i :: 0 <= i < |s| && s[i] != 0
    ensures PulseAt(s, j) == PulseAt(t, j)
  {
    var k := FirstTruthy(s).value;
    assert t[k] != 0;
  }
}
