/**
 The stretch wrapper (`stretch_samples`). The time-stretch routine itself is a
 foreign numeric library: it is a parameter here, an `Engine` that gives the
 value it writes at each index of the output buffer, as a function of the
 input, the sample rate and the buffer length. Only the wrapper's own
 contract is modelled: identity at tempo 1.0, and the length of the buffer
 it hands to the engine otherwise.
 */
module Stretch {

  /** The foreign stretch routine: (input, sample rate, output length, index) to the sample written there. */
  type Engine = (seq<real>, nat, nat, nat) -> real

  /**
   The output length `(input_len as f32 * (1.0 / tempo)) as usize`: the input
   length scaled by the inverse tempo and truncated, so it is the largest whole
   number of samples not above `n / tempo`.
   */
  function OutputLength(n: nat, tempo: real): (r: nat)
    requires tempo > 0.0
    ensures r as real <= n as real / tempo < r as real + 1.0
  {
    var scaled := n as real * (1.0 / tempo);
    assert scaled == n as real / tempo;
    assert scaled >= 0.0;
    scaled.Floor
  }

  /** What `stretch_samples` returns: the input itself at tempo 1.0, otherwise what the engine writes. */
  function Stretched(input: seq<real>, sampleRate: nat, tempo: real, engine: Engine): (r: seq<real>)
    requires tempo > 0.0
    ensures tempo == 1.0 ==> r == input
    ensures tempo != 1.0 ==> |r| == OutputLength(|input|, tempo)
  {
    if tempo == 1.0 then input
    else
      var n := OutputLength(|input|, tempo);
      seq(n, i requires 0 <= i < n => engine(input, sampleRate, n, i))
  }

  /**
   `stretch_samples`: at tempo 1.0 a copy of the input; otherwise a buffer of
   `OutputLength` zeros is allocated and the engine fills it in place.
   */
  method StretchSamples(input: seq<real>, sampleRate: nat, tempo: real, engine: Engine) returns (output: seq<real>)
    requires tempo > 0.0
    ensures tempo == 1.0 ==> output == input
    ensures tempo != 1.0 ==> |output| == OutputLength(|input|, tempo)
    ensures tempo != 1.0 ==> forall i :: 0 <= i < |output| ==> output[i] == engine(input, sampleRate, |output|, i)
    ensures output == Stretched(input, sampleRate, tempo, engine)
  {
    if tempo == 1.0 {
      return input;
    }
    var n := OutputLength(|input|, tempo);
    var buffer := new real[n](_ => 0.0);
    // the foreign call writes every sample of the buffer
    forall i | 0 <= i < n {
      buffer[i] := engine(input, sampleRate, n, i);
    }
    output := buffer[..];
  }

  /** A tempo above 1.0 shortens any non-empty buffer. */
  lemma FasterIsShorter(n: nat, tempo: real)
    requires tempo > 1.0 && n > 0
    ensures OutputLength(n, tempo) < n
  {
  }

  /** A tempo below 1.0 never shortens a buffer, and the length stays within one sample of `n / tempo`. */
  lemma SlowerIsNotShorter(n: nat, tempo: real)
    requires 0.0 < tempo < 1.0
    ensures OutputLength(n, tempo) >= n
    ensures OutputLength(n, tempo) as real > n as real / tempo - 1.0
  {
  }

  /** A faster tempo never gives a longer buffer. */
  lemma LengthMonotone(n: nat, t1: real, t2: real)
    requires 0.0 < t1 <= t2
    ensures OutputLength(n, t2) <= OutputLength(n, t1)
  {
    assert n as real / t2 <= n as real / t1 by {
      assert (n as real / t1) * t1 == n as real;
      assert (n as real / t2) * t2 == n as real;
    }
  }

  /** The lengths the tool's unit tests expect (10 samples at tempo 2.0 give 5, 5 samples at tempo 0.5 give 10), and those of one second of audio. */
  lemma LengthExamples()
    ensures OutputLength(10, 2.0) == 5 && OutputLength(10, 2.0) < 10
    ensures OutputLength(5, 0.5) == 10 && OutputLength(5, 0.5) > 5
    ensures OutputLength(16000, 0.5) == 32000 && OutputLength(16000, 2.0) == 8000
  {
  }
}
