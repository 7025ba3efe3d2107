/**
  The sample-and-hold resampler of scripts/timing.py (`get_from_usb`).

  The script divides floats; here both the speed ratio and the clock offset are exact
  fractions of natural numbers, so that every quantity the resampler computes is an
  integer:
    output length   floor(L * p/q)             == (L * p) / q
    source index i  floor((i + a/b) / (p/q))   == ((i * b + a) * q) / (b * p)
  All operands are non-negative, so Dafny's `/` is the floor division of the script.
*/
module Resampler {
  import opened Wrappers

  /** A non-negative fraction num/den. */
  datatype Fraction = Fraction(num: nat, den: nat)

  /** A speed ratio: a positive fraction (source ticks per output tick). */
  predicate IsRatio(r: Fraction) { r.num > 0 && r.den > 0 }

  /** A clock offset: a non-negative fraction. */
  predicate IsOffset(o: Fraction) { o.den > 0 }

  /** The speed ratio of the script, 25/3. */
  const SPEED_RATIO: Fraction := Fraction(25, 3)

  /** Why numpy refuses the final fancy-indexing step. */
  datatype IndexError =
    | OutOfBounds(index: nat, size: nat)  // an index reaches past the source
    | NonIntegerIndexArray                // the index array is empty, hence of float dtype

  // ---------------------------------------------------------------------------
  // Arithmetic helpers

  lemma MulLeq(x: nat, y: nat, c: nat)
    requires x <= y
    ensures x * c <= y * c
  {}

  lemma MulLess(x: nat, y: nat, c: nat)
    requires x < y && c > 0
    ensures x * c < y * c
  {}

  // ---------------------------------------------------------------------------
  // The two integer quantities

  /** The number of output samples: the floor of L * ratio. */
  function OutputLength(len: nat, ratio: Fraction): (n: nat)
    requires IsRatio(ratio)
    ensures n * ratio.den <= len * ratio.num < (n + 1) * ratio.den
  {
    (len * ratio.num) / ratio.den
  }

  /** The numerator (i + a/b) * q * b of the sampling instant of output i, scaled by b * q. */
  function Instant(i: nat, ratio: Fraction, offset: Fraction): nat
  {
    (i * offset.den + offset.num) * ratio.den
  }

  /** The source index held by output i: the floor of (i + offset) / ratio. */
  function SourceIndex(i: nat, ratio: Fraction, offset: Fraction): (k: nat)
    requires IsRatio(ratio) && IsOffset(offset)
    ensures k * (offset.den * ratio.num) <= Instant(i, ratio, offset)
                                          < (k + 1) * (offset.den * ratio.num)
  {
    Instant(i, ratio, offset) / (offset.den * ratio.num)
  }

  // ---------------------------------------------------------------------------
  // Properties of the source index

  /** A later output never holds an earlier source sample (sample-and-hold ordering). */
  lemma IndexMonotone(i: nat, j: nat, ratio: Fraction, offset: Fraction)
    requires IsRatio(ratio) && IsOffset(offset)
    requires i <= j
    ensures SourceIndex(i, ratio, offset) <= SourceIndex(j, ratio, offset)
  {
    var d := offset.den * ratio.num;
    var ki, kj := SourceIndex(i, ratio, offset), SourceIndex(j, ratio, offset);
    MulLeq(i, j, offset.den);
    MulLeq(i * offset.den + offset.num, j * offset.den + offset.num, ratio.den);
    if kj < ki {
      MulLeq(kj + 1, ki, d);
      assert false;
    }
  }

  /** With an offset below one tick, every index of the output stays inside the source. */
  lemma IndexInBounds(len: nat, i: nat, ratio: Fraction, offset: Fraction)
    requires IsRatio(ratio) && IsOffset(offset)
    requires offset.num < offset.den
    requires i < OutputLength(len, ratio)
    ensures SourceIndex(i, ratio, offset) < len
  {
    var p, q, a, b := ratio.num, ratio.den, offset.num, offset.den;
    var k := SourceIndex(i, ratio, offset);
    InstantBelow(len, i, ratio, offset);
    if len <= k {
      MulLeq(len, k, b * p);
      assert false;
    }
  }

  /** The instant of an output below floor(L * p/q) lies before the end of the source. */
  lemma InstantBelow(len: nat, i: nat, ratio: Fraction, offset: Fraction)
    requires IsRatio(ratio) && IsOffset(offset)
    requires offset.num < offset.den
    requires i < OutputLength(len, ratio)
    ensures Instant(i, ratio, offset) < len * (offset.den * ratio.num)
  {
    var p, q, a, b := ratio.num, ratio.den, offset.num, offset.den;
    var n := OutputLength(len, ratio);
    // (i + 1) * q <= n * q <= len * p
    MulLeq(i + 1, n, q);
    var u := (i + 1) * q;
    var v := len * p;
    assert u <= v;
    // i * b + a < (i + 1) * b
    var w := (i + 1) * b;
    assert i * b + a < w;
    MulLess(i * b + a, w, q);
    Rearrange(i + 1, b, q);
    assert w * q == u * b;
    MulLeq(u, v, b);
    Rearrange(len, p, b);
    assert v * b == len * (b * p);
  }

  lemma Rearrange(x: nat, y: nat, z: nat)
    ensures (x * y) * z == (x * z) * y == x * (z * y)
  {}

  /**
    When the ratio is at least one (the script oversamples: 25/3), consecutive outputs
    advance by at most one source sample, so no source sample is skipped.
  */
  lemma IndexStep(i: nat, ratio: Fraction, offset: Fraction)
    requires IsRatio(ratio) && IsOffset(offset)
    requires ratio.den <= ratio.num
    ensures SourceIndex(i, ratio, offset) <= SourceIndex(i + 1, ratio, offset)
                                         <= SourceIndex(i, ratio, offset) + 1
  {
    IndexMonotone(i, i + 1, ratio, offset);
    var p, q, a, b := ratio.num, ratio.den, offset.num, offset.den;
    var d := b * p;
    var k, k' := SourceIndex(i, ratio, offset), SourceIndex(i + 1, ratio, offset);
    var x, x' := Instant(i, ratio, offset), Instant(i + 1, ratio, offset);
    // one output tick later the instant grows by b * q <= b * p
    Distribute(i * b + a, b, q);
    assert x' == x + b * q;
    MulLeq(q, p, b);
    assert x' < (k + 2) * d by {
      Distribute(k + 1, 1, d);
    }
    if k + 1 < k' {
      MulLeq(k + 2, k', d);
      assert false;
    }
  }

  lemma Distribute(x: nat, y: nat, z: nat)
    ensures (x + y) * z == x * z + y * z
  {}

  /** An offset smaller than the ratio keeps the first output on the first source sample. */
  lemma FirstIndexIsZero(ratio: Fraction, offset: Fraction)
    requires IsRatio(ratio) && IsOffset(offset)
    requires offset.num * ratio.den < offset.den * ratio.num
    ensures SourceIndex(0, ratio, offset) == 0
  {
    var k := SourceIndex(0, ratio, offset);
    if k > 0 {
      MulLeq(1, k, offset.den * ratio.num);
      assert false;
    }
  }

  // ---------------------------------------------------------------------------
  // get_from_usb

  /** The sample-and-hold output of `d`, for an index map already known to stay inside `d`. */
  function Held<T>(d: seq<T>, ratio: Fraction, offset: Fraction): (s: seq<T>)
    requires IsRatio(ratio) && IsOffset(offset)
    requires forall i :: 0 <= i < OutputLength(|d|, ratio) ==> SourceIndex(i, ratio, offset) < |d|
    ensures |s| == OutputLength(|d|, ratio)
    ensures forall i :: 0 <= i < |s| ==> s[i] == d[SourceIndex(i, ratio, offset)]
  {
    seq(OutputLength(|d|, ratio), i requires 0 <= i < OutputLength(|d|, ratio) =>
      d[SourceIndex(i, ratio, offset)])
  }

  /**
    get_from_usb with sequence semantics: the sampled sequence, or the index of the last
    output, which is out of range whenever any index is, since indices never decrease.
  */
  function GetFromUsb<T>(d: seq<T>, ratio: Fraction, offset: Fraction): (r: Result<seq<T>, IndexError>)
    requires IsRatio(ratio) && IsOffset(offset)
    ensures r.Success? <==>
      forall i :: 0 <= i < OutputLength(|d|, ratio) ==> SourceIndex(i, ratio, offset) < |d|
    ensures r.Success? ==>
      |r.value| == OutputLength(|d|, ratio) &&
      forall i :: 0 <= i < |r.value| ==> r.value[i] == d[SourceIndex(i, ratio, offset)]
    ensures r.Failure? ==> r.error.OutOfBounds? && |d| <= r.error.index
  {
    var n := OutputLength(|d|, ratio);
    if n == 0 then
      Success([])
    else
      var last := SourceIndex(n - 1, ratio, offset);
      if last < |d| then
        assert forall i :: 0 <= i < n ==> SourceIndex(i, ratio, offset) < |d| by {
          forall i | 0 <= i < n ensures SourceIndex(i, ratio, offset) < |d| {
            IndexMonotone(i, n - 1, ratio, offset);
          }
        }
        Success(Held(d, ratio, offset))
      else
        Failure(OutOfBounds(last, |d|))
  }

  /** For every offset in [0, 1) the resampler succeeds and holds `d` at the computed indices. */
  lemma GetFromUsbSucceeds<T>(d: seq<T>, ratio: Fraction, offset: Fraction)
    requires IsRatio(ratio) && IsOffset(offset)
    requires offset.num < offset.den
    ensures GetFromUsb(d, ratio, offset).Success?
  {
    forall i | 0 <= i < OutputLength(|d|, ratio) ensures SourceIndex(i, ratio, offset) < |d| {
      IndexInBounds(|d|, i, ratio, offset);
    }
  }

  /**
    get_from_usb as the script runs it under numpy: when the output is empty the index
    array `np.array([])` has float dtype, and indexing with it raises IndexError.
  */
  function GetFromUsbAsWritten<T>(d: seq<T>, ratio: Fraction, offset: Fraction): (r: Result<seq<T>, IndexError>)
    requires IsRatio(ratio) && IsOffset(offset)
    ensures OutputLength(|d|, ratio) == 0 <==> r == Failure(NonIntegerIndexArray)
    ensures OutputLength(|d|, ratio) > 0 ==> r == GetFromUsb(d, ratio, offset)
  {
    if OutputLength(|d|, ratio) == 0 then Failure(NonIntegerIndexArray) else GetFromUsb(d, ratio, offset)
  }

  /** The empty source crashes the script, although an empty source has an empty resampling. */
  lemma EmptySourceAsWritten<T>(offset: Fraction)
    requires IsOffset(offset)
    ensures GetFromUsbAsWritten<T>([], SPEED_RATIO, offset) == Failure(NonIntegerIndexArray)
    ensures GetFromUsb<T>([], SPEED_RATIO, offset) == Success([])
  {}
}
