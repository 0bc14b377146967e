/**
 The parts of the WAV codec (the `hound` library) that the tool relies on.
 The codec itself is not part of this model: an opened file is given as its
 header and the outcome of decoding each sample in turn, and the output
 medium as the outcomes of creating the file, of each write and of the
 final header patch.
 */
module Wav {
  import opened Wrappers
  import opened Samples

  datatype SampleFormat = Int | Float

  /** `hound::WavSpec`: the format header of a WAV file. */
  datatype WavSpec = WavSpec(channels: nat, sampleRate: nat, bitsPerSample: nat, sampleFormat: SampleFormat)

  /** One item of `reader.samples::<i16>()`: a decoded sample, or a decoding error. */
  datatype SampleRead = Sample(value: I16) | Malformed

  /** An opened `WavReader`: its header and the outcome of reading each sample, in file order. */
  datatype Reader = Reader(spec: WavSpec, stream: seq<SampleRead>)

  /**
   The output medium: whether `WavWriter::create` succeeds, the index of the
   first `write_sample` call that fails (if any), and whether `finalize` succeeds.
   */
  datatype Sink = Sink(createOk: bool, failingWrite: Option<nat>, finalizeOk: bool)

  /** A file left on disk by a writer: its header, the samples written so far, and whether it was finalised. */
  datatype WavFile = WavFile(spec: WavSpec, samples: seq<I16>, finalized: bool)

  /** `hound::WavWriter`: a file being written sample by sample. */
  class WavWriter {
    const spec: WavSpec
    const sink: Sink
    var samples: seq<I16>
    var finalized: bool

    /** `WavWriter::create` when it succeeds: the header is written, no sample yet. */
    constructor Create(spec: WavSpec, sink: Sink)
      requires sink.createOk
      ensures this.spec == spec && this.sink == sink
      ensures samples == [] && !finalized
    {
      this.spec := spec;
      this.sink := sink;
      samples := [];
      finalized := false;
    }

    /** What the writer has left on disk. */
    function File(): WavFile
      reads this
    {
      WavFile(spec, samples, finalized)
    }

    /** `write_sample`: appends one sample, unless the medium fails at this write. */
    method WriteSample(s: I16) returns (ok: bool)
      requires !finalized
      modifies this
      ensures ok <==> sink.failingWrite != Some(|old(samples)|)
      ensures samples == if ok then old(samples) + [s] else old(samples)
      ensures !finalized
    {
      ok := sink.failingWrite != Some(|samples|);
      if ok {
        samples := samples + [s];
      }
    }

    /** `finalize`: patches the header with the final length, unless the medium fails. */
    method Finalize() returns (ok: bool)
      modifies this
      ensures ok == sink.finalizeOk
      ensures finalized == (old(finalized) || ok)
      ensures samples == old(samples)
    {
      ok := sink.finalizeOk;
      finalized := finalized || ok;
    }
  }
}
