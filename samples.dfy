/**
 The sample converter of the tempo tool: 16-bit PCM samples are normalised
 to floating point before the stretch and brought back to 16 bits after it.
 Floating-point values are modelled as exact reals; the f32 rounding of the
 conversions is not modelled.
 */
module Samples {

  /** A signed 16-bit sample (Rust `i16`). */
  type I16 = x: int | -32768 <= x <= 32767

  /** The sign of a sample: -1, 0 or 1. */
  function Sign(s: int): int
  {
    if s > 0 then 1 else if s < 0 then -1 else 0
  }

  /** Normalisation of one sample: `s as f32 / 32768.0`. */
  function ToFloat(s: I16): (r: real)
    ensures -1.0 <= r < 1.0
    ensures r * 32768.0 == s as real
  {
    s as real / 32768.0
  }

  /** `f32::clamp(lo, hi)`: below `lo` gives `lo`, above `hi` gives `hi`. */
  function Clamp(y: real, lo: real, hi: real): (r: real)
    requires lo <= hi
    ensures lo <= r <= hi
    ensures lo <= y <= hi ==> r == y
    ensures y < lo ==> r == lo
    ensures y > hi ==> r == hi
  {
    if y < lo then lo else if y > hi then hi else y
  }

  /** Rust's `as` from a float to an integer drops the fraction: it truncates toward zero. */
  function Trunc(y: real): (r: int)
    ensures y >= 0.0 ==> 0 <= r && r as real <= y < r as real + 1.0
    ensures y < 0.0 ==> r <= 0 && r as real - 1.0 < y <= r as real
  {
    if y >= 0.0 then y.Floor else -((-y).Floor)
  }

  /** De-normalisation of one sample: `(x * 32767.0).clamp(-32768.0, 32767.0) as i16`. */
  function ToInt(x: real): (r: I16)
    // saturation at both ends
    ensures x * 32767.0 >= 32767.0 ==> r == 32767
    ensures x * 32767.0 <= -32768.0 ==> r == -32768
    // in range, the scaled value is truncated toward zero
    ensures 0.0 <= x * 32767.0 <= 32767.0 ==> 0 <= r && r as real <= x * 32767.0 < r as real + 1.0
    ensures -32768.0 <= x * 32767.0 < 0.0 ==> r <= 0 && r as real - 1.0 < x * 32767.0 <= r as real
  {
    var y := Clamp(x * 32767.0, -32768.0, 32767.0);
    assert 0.0 <= y ==> 0 <= y.Floor <= 32767;
    assert y < 0.0 ==> 0 <= (-y).Floor <= 32768;
    Trunc(y)
  }

  /** `samples.iter().map(|&s| s as f32 / 32768.0).collect()`. */
  function Normalize(s: seq<I16>): (r: seq<real>)
    ensures |r| == |s|
    ensures forall i :: 0 <= i < |s| ==> -1.0 <= r[i] < 1.0 && r[i] * 32768.0 == s[i] as real
  {
    seq(|s|, i requires 0 <= i < |s| => ToFloat(s[i]))
  }

  /** `output.iter().map(|&s| (s * 32767.0).clamp(-32768.0, 32767.0) as i16).collect()`. */
  function Denormalize(xs: seq<real>): (r: seq<I16>)
    ensures |r| == |xs|
    ensures forall i :: 0 <= i < |xs| && xs[i] >= 1.0 ==> r[i] == 32767
    ensures forall i :: 0 <= i < |xs| && xs[i] * 32767.0 <= -32768.0 ==> r[i] == -32768
    ensures forall i :: 0 <= i < |xs| ==> r[i] == ToInt(xs[i])
  {
    seq(|xs|, i requires 0 <= i < |xs| => ToInt(xs[i]))
  }

  /**
   Converting a sample to float and back never moves it away from zero by
   more than it started: a non-zero sample comes back exactly one step closer
   to zero, because the scale down is 32768 and the scale up is 32767.
   */
  lemma RoundTrip(s: I16)
    ensures ToInt(ToFloat(s)) == s - Sign(s)
    ensures -1 <= ToInt(ToFloat(s)) - s <= 1
  {
  }

  /** The round trip over a whole buffer, sample by sample, in order. */
  lemma RoundTripBuffer(s: seq<I16>)
    ensures |Denormalize(Normalize(s))| == |s|
    ensures forall i :: 0 <= i < |s| ==> Denormalize(Normalize(s))[i] == s[i] - Sign(s[i])
  {
    forall i | 0 <= i < |s|
      ensures Denormalize(Normalize(s))[i] == s[i] - Sign(s[i])
    {
      RoundTrip(s[i]);
    }
  }

  /**
   A sample of magnitude at least 1.0 lands on an extreme of the i16 range and
   never wraps: 1.0 and above give 32767; -1.0 and below give -32768 once the
   scaled value reaches -32768, and -32767 between -1.0 and -32768/32767.
   */
  lemma Saturates(x: real)
    requires x >= 1.0 || x <= -1.0
    ensures x >= 1.0 ==> ToInt(x) == 32767
    ensures x <= -1.0 ==> ToInt(x) == (if x * 32767.0 <= -32768.0 then -32768 else -32767)
  {
  }
}
