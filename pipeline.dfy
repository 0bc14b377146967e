/**
 The per-file pipeline (`process_file`): open, check the format, read every
 sample, normalise, stretch, de-normalise and write the result with the
 input's own header.
 */
module Pipeline {
  import opened Wrappers
  import opened Samples
  import opened Stretch
  import opened Wav

  /** The ways one file can fail; each is reported and the batch goes on. */
  datatype PipelineError =
    | OpenFailed         // `WavReader::open`
    | UnsupportedFormat  // not mono 16-bit PCM at 16000 Hz
    | InvalidSample      // a sample failed to decode
    | CreateFailed       // `WavWriter::create`
    | WriteFailed        // `write_sample`
    | FinalizeFailed     // `finalize`

  /** What processing one file does: its result, and the file it leaves at the output path, if any. */
  datatype FileOutcome = FileOutcome(result: Result<(), PipelineError>, written: Option<WavFile>)

  /** The only input format accepted: 1 channel, 16000 Hz, 16 bits per sample, integer samples. */
  predicate Accepted(spec: WavSpec): (b: bool)
    ensures b <==> spec == WavSpec(1, 16000, 16, Int)
  {
    spec.channels == 1 && spec.sampleRate == 16000 && spec.bitsPerSample == 16 && spec.sampleFormat == Int
  }

  /**
   Collecting `reader.samples::<i16>()` into a `Result<Vec<i16>>`: the samples
   in order when every read succeeds, otherwise the error of the first one
   that fails (no later sample is read).
   */
  function CollectSamples(stream: seq<SampleRead>): (r: Result<seq<I16>, PipelineError>)
    ensures r.Ok? <==> forall i :: 0 <= i < |stream| ==> stream[i].Sample?
    ensures r.Ok? ==> |r.value| == |stream| && forall i :: 0 <= i < |stream| ==> stream[i] == Sample(r.value[i])
    ensures r.Err? ==> r.error == InvalidSample
  {
    if stream == [] then Ok([])
    else if stream[0].Malformed? then Err(InvalidSample)
    else
      match CollectSamples(stream[1..])
      case Ok(rest) => Ok([stream[0].value] + rest)
      case Err(e) => Err(e)
  }

  /** The samples written for an accepted input: normalised, stretched and de-normalised. */
  function Converted(samples: seq<I16>, sampleRate: nat, tempo: real, engine: Engine): (r: seq<I16>)
    requires tempo > 0.0
    ensures tempo == 1.0 ==> |r| == |samples| && forall i :: 0 <= i < |r| ==> r[i] == samples[i] - Sign(samples[i])
    ensures tempo != 1.0 ==> |r| == OutputLength(|samples|, tempo)
  {
    RoundTripBuffer(samples);
    Denormalize(Stretched(Normalize(samples), sampleRate, tempo, engine))
  }

  /** Writing `out` with header `spec`: create, every sample in order stopping at the first failure, finalise. */
  function Write(spec: WavSpec, out: seq<I16>, sink: Sink): (o: FileOutcome)
    // success exactly when a finalised file is left, and a file left always carries the header and a prefix of `out`
    ensures o.result.Ok? <==> o.written.Some? && o.written.value.finalized
    ensures o.written.Some? ==> o.written.value.spec == spec && o.written.value.samples <= out
    ensures o.result.Ok? ==> o.written.value.samples == out
  {
    if !sink.createOk then FileOutcome(Err(CreateFailed), None)
    else if sink.failingWrite.Some? && sink.failingWrite.value < |out| then
      FileOutcome(Err(WriteFailed), Some(WavFile(spec, out[..sink.failingWrite.value], false)))
    else if !sink.finalizeOk then FileOutcome(Err(FinalizeFailed), Some(WavFile(spec, out, false)))
    else FileOutcome(Ok(()), Some(WavFile(spec, out, true)))
  }

  /** The whole of `process_file` as a function of what the file holds and how the output medium behaves. */
  function Process(source: Option<Reader>, sink: Sink, tempo: real, engine: Engine): (o: FileOutcome)
    requires tempo > 0.0
    // nothing is written for a file that does not open, is not in the accepted format or has a bad sample
    ensures o.written.Some? ==> source.Some? && Accepted(source.value.spec) && o.written.value.spec == source.value.spec
    ensures o.written.Some? ==> forall i :: 0 <= i < |source.value.stream| ==> source.value.stream[i].Sample?
  {
    match source
    case None => FileOutcome(Err(OpenFailed), None)
    case Some(reader) =>
      if !Accepted(reader.spec) then FileOutcome(Err(UnsupportedFormat), None)
      else
        match CollectSamples(reader.stream)
        case Err(e) => FileOutcome(Err(e), None)
        case Ok(samples) => Write(reader.spec, Converted(samples, reader.spec.sampleRate, tempo, engine), sink)
  }

  /** `process_file`: checks the header, reads and converts the samples, then writes them. */
  method ProcessFile(source: Option<Reader>, sink: Sink, tempo: real, engine: Engine)
    returns (result: Result<(), PipelineError>, written: Option<WavFile>)
    requires tempo > 0.0
    ensures FileOutcome(result, written) == Process(source, sink, tempo, engine)
  {
    if source.None? {
      return Err(OpenFailed), None;
    }
    var spec := source.value.spec;
    if !Accepted(spec) {
      return Err(UnsupportedFormat), None;
    }
    var samples := CollectSamples(source.value.stream);
    if samples.Err? {
      return Err(samples.error), None;
    }
    var input := Normalize(samples.value);
    var stretched := StretchSamples(input, spec.sampleRate, tempo, engine);
    var out := Denormalize(stretched);
    assert out == Converted(samples.value, spec.sampleRate, tempo, engine);
    result, written := WriteFile(spec, out, sink);
  }

  /**
   The writing half of `process_file`: creates a writer with the input's
   header and pushes the samples into it one by one, stopping at the first
   failed write, then finalises.
   */
  method WriteFile(spec: WavSpec, out: seq<I16>, sink: Sink)
    returns (result: Result<(), PipelineError>, written: Option<WavFile>)
    ensures FileOutcome(result, written) == Write(spec, out, sink)
  {
    if !sink.createOk {
      return Err(CreateFailed), None;
    }
    var writer := new WavWriter.Create(spec, sink);
    var i := 0;
    while i < |out|
      invariant 0 <= i <= |out|
      invariant writer.spec == spec && writer.sink == sink
      invariant writer.samples == out[..i] && !writer.finalized
      invariant sink.failingWrite.Some? ==> sink.failingWrite.value >= i
    {
      var ok := writer.WriteSample(out[i]);
      if !ok {
        return Err(WriteFailed), Some(writer.File());
      }
      i := i + 1;
    }
    assert out[..i] == out;
    var ok := writer.Finalize();
    if !ok {
      return Err(FinalizeFailed), Some(writer.File());
    }
    return Ok(()), Some(writer.File());
  }

  /**
   A file whose header is not mono 16-bit PCM at 16000 Hz is rejected before
   any sample is read and before an output is created: the outcome is the
   same whatever its samples and whatever the output medium would do.
   */
  lemma RejectedBeforeReading(spec: WavSpec, stream: seq<SampleRead>, sink: Sink, tempo: real, engine: Engine)
    requires tempo > 0.0
    requires spec.channels != 1 || spec.sampleRate != 16000 || spec.bitsPerSample != 16 || spec.sampleFormat != Int
    ensures Process(Some(Reader(spec, stream)), sink, tempo, engine) == FileOutcome(Err(UnsupportedFormat), None)
  {
  }

  /** One sample that fails to decode fails the whole file, and no output is created. */
  lemma BadSampleFailsFile(spec: WavSpec, stream: seq<SampleRead>, k: nat, sink: Sink, tempo: real, engine: Engine)
    requires tempo > 0.0 && Accepted(spec)
    requires k < |stream| && stream[k].Malformed?
    ensures Process(Some(Reader(spec, stream)), sink, tempo, engine) == FileOutcome(Err(InvalidSample), None)
  {
  }

  /**
   A file is processed successfully exactly when it opens, has the accepted
   format, every sample decodes, and the medium accepts the creation, every
   write and the finalisation. Then the output is a finalised file with the
   input's header unchanged and the converted samples in order.
   */
  lemma SuccessExactly(source: Option<Reader>, sink: Sink, tempo: real, engine: Engine)
    requires tempo > 0.0
    ensures Process(source, sink, tempo, engine).result.Ok? <==>
      && source.Some?
      && Accepted(source.value.spec)
      && (forall i :: 0 <= i < |source.value.stream| ==> source.value.stream[i].Sample?)
      && sink.createOk && sink.finalizeOk
      && (sink.failingWrite.Some? ==>
            sink.failingWrite.value >= |Converted(CollectSamples(source.value.stream).value, 16000, tempo, engine)|)
    ensures Process(source, sink, tempo, engine).result.Ok? ==>
      var samples := CollectSamples(source.value.stream).value;
      && (forall i :: 0 <= i < |samples| ==> source.value.stream[i] == Sample(samples[i]))
      && Process(source, sink, tempo, engine).written ==
           Some(WavFile(source.value.spec, Converted(samples, 16000, tempo, engine), true))
  {
  }

  /**
   A failure leaves no output file exactly when it happens before the writer
   is created; a failed write or finalisation leaves an unfinalised file that
   holds the samples written before the failure.
   */
  lemma FailureLeavesNoFinalizedFile(source: Option<Reader>, sink: Sink, tempo: real, engine: Engine)
    requires tempo > 0.0
    ensures var o := Process(source, sink, tempo, engine);
      o.result.Err? ==>
        && (o.written.None? <==> o.result.error in {OpenFailed, UnsupportedFormat, InvalidSample, CreateFailed})
        && (o.written.Some? ==> !o.written.value.finalized)
  {
  }

  /**
   The length of a successful output: the input's sample count at tempo 1.0,
   otherwise that count divided by the tempo and truncated.
   */
  lemma OutputSampleCount(source: Option<Reader>, sink: Sink, tempo: real, engine: Engine)
    requires tempo > 0.0
    requires Process(source, sink, tempo, engine).result.Ok?
    ensures var n := |source.value.stream|;
      |Process(source, sink, tempo, engine).written.value.samples| ==
        (if tempo == 1.0 then n else OutputLength(n, tempo))
  {
  }

  /**
   At tempo 1.0 the engine is never involved: every decoded sample comes back
   one step closer to zero (zero stays zero), in the same order.
   */
  lemma IdentityTempo(source: Option<Reader>, sink: Sink, engine: Engine)
    requires Process(source, sink, 1.0, engine).result.Ok?
    ensures var out := Process(source, sink, 1.0, engine).written.value.samples;
      && |out| == |source.value.stream|
      && forall i :: 0 <= i < |out| ==> out[i] == source.value.stream[i].value - Sign(source.value.stream[i].value)
  {
  }

  /**
   One second of accepted audio (16000 decoded samples) written without a
   failure comes out with the same header and 32000 samples at tempo 0.5, and
   8000 samples at tempo 2.0.
   */
  lemma OneSecond(spec: WavSpec, stream: seq<SampleRead>, tempo: real, engine: Engine)
    requires Accepted(spec) && |stream| == 16000 && forall i :: 0 <= i < |stream| ==> stream[i].Sample?
    requires tempo == 0.5 || tempo == 2.0
    ensures var o := Process(Some(Reader(spec, stream)), Sink(true, None, true), tempo, engine);
      && o.result.Ok?
      && o.written.Some? && o.written.value.spec == spec
      && |o.written.value.samples| == (if tempo == 0.5 then 32000 else 8000)
  {
  }
}
