# wav-files-tempo, modelled in Dafny

`wav-files-tempo` walks an input directory. It converts every mono, 16 kHz,
16-bit PCM WAV file into a tempo-adjusted copy at the same relative path
under an output directory. This model covers the tool's whole processing
core, `src/main.rs`:

- **Samples** (`samples.dfy`): normalisation `s / 32768` and
  de-normalisation `(x * 32767).clamp(-32768, 32767) as i16`. Floats are
  modelled as exact reals. Rust's float-to-integer `as` is modelled as
  truncation toward zero.
- **Stretch** (`stretch.dfy`): the `stretch_samples` wrapper. At tempo 1.0
  it returns the input. Otherwise it allocates `floor(len * (1 / tempo))`
  zeros that the foreign stretch routine fills. The routine is a parameter
  (`Engine`): a function from the input, the sample rate, the buffer length
  and an index to the value written there.
- **Wav** (`wav.dfy`): the parts of the `hound` codec the tool uses. An opened
  reader is a header plus the outcome of each sample read. The output medium
  is the outcome of creating the file, of each write and of finalising. The
  writer is a class that the pipeline fills one sample at a time.
- **Pipeline** (`pipeline.dfy`): `process_file`, as the function `Process`.
  It opens the file, checks the format, collects the samples (stopping at
  the first bad one), normalises, stretches and de-normalises. Then it writes
  with the input's header. `ProcessFile` is the imperative version, proved
  equal to `Process`; its writing half `WriteFile` holds the write loop and
  is proved equal to the function `Write`.
- **Batch** (`batch.dfy`): `main`'s loop over the directory walk, as the
  left fold `Run` of `Step`. `RunBatch` is the loop, proved equal to it.
  Paths are sequences of components. The walk is given as the items it
  yields. Each entry carries the outcome of creating its output directory,
  along with its contents and output medium.

The model follows the code. Where the code and what is sometimes said of it
differ, the differences are these:

- A round trip through the two conversions is not drift-free. Every non-zero
  sample comes back exactly one step closer to zero (`Samples.RoundTrip`),
  because the scale down is 32768 and the scale up is 32767.
- A float of magnitude at least 1.0 does not always land on 32767 or -32768.
  The negative values from -1.0 down to just above -32768/32767 give -32767
  (`Samples.Saturates`). Only the positive end and the scaled values at or
  below -32768 reach the bounds.
- The float-to-i16 cast truncates toward zero; it does not round
  (src/main.rs:88, `Samples.Trunc`, `Samples.ToInt`).
- Only a failure inside `process_file` is reported and skipped. A path that
  `strip_prefix` rejects (src/main.rs:118) or an output sub-directory that
  cannot be created (src/main.rs:120-121) ends the whole run with an error
  (`Batch.Step`, `Batch.CompletesExactly`).
- The tempo is never checked to be positive (src/main.rs:29-36, 123).

## Model

| member | source | states |
|---|---|---|
| `Samples.ToFloat` | src/main.rs:80 | the normalised sample lies in [-1, 1) and times 32768 gives back the i16 exactly |
| `Samples.Clamp` | src/main.rs:88 | a value below `lo` gives `lo`, one above `hi` gives `hi`, and one within the bounds comes back unchanged |
| `Samples.Trunc` | src/main.rs:88 | the float-to-integer cast truncates toward zero: the result has the input's sign, is not larger in magnitude, and is less than one away |
| `Samples.ToInt` | src/main.rs:88 | a scaled value at or above 32767 gives 32767, at or below -32768 gives -32768, and in between it is truncated toward zero (the magnitude of the result is at most that of the scaled value, and less than one below it) |
| `Samples.Normalize` | src/main.rs:75-80 | same length and order, each sample `s` mapped to `s / 32768` in [-1, 1) |
| `Samples.Denormalize` | src/main.rs:85-89 | same length and order, each value converted by `ToInt`; every value at or above 1.0 becomes 32767, every one scaled to -32768 or below becomes -32768 |
| `Samples.RoundTrip` | src/main.rs:80-88 | `ToInt(ToFloat(s))` is `s` moved one step toward zero (zero stays zero), so never further than 1 from `s` |
| `Samples.RoundTripBuffer` | src/main.rs:76-89 | the round trip over a buffer keeps its length and order and moves each sample one step toward zero |
| `Samples.Saturates` | src/main.rs:88 | magnitude at least 1.0 gives 32767 on the positive side; on the negative side it gives -32768 once the scaled value reaches -32768, and -32767 above that, never a wrapped value |
| `Stretch.OutputLength` | src/main.rs:34-36 | the output length is the largest whole number not above `len / tempo`, so it lies within one sample below `len / tempo` |
| `Stretch.Stretched` | src/main.rs:29-38 | at tempo 1.0 the input itself; otherwise a buffer of `OutputLength` samples |
| `Stretch.StretchSamples` | src/main.rs:29-59 | at tempo 1.0 a copy equal to the input; otherwise a buffer of exactly `OutputLength(len, tempo)` samples, each the value the engine writes at that index |
| `Stretch.FasterIsShorter` | src/main.rs:34-36 | a tempo above 1.0 gives a strictly shorter buffer for any non-empty input |
| `Stretch.SlowerIsNotShorter` | src/main.rs:34-36 | a tempo below 1.0 never gives a shorter buffer, and misses `len / tempo` by less than one sample |
| `Stretch.LengthMonotone` | src/main.rs:34-36 | a faster tempo never gives a longer buffer |
| `Stretch.LengthExamples` | src/main.rs:144-162 | 10 samples at tempo 2.0 give 5 (shorter) and 5 samples at tempo 0.5 give 10 (longer), as the unit tests expect; 16000 samples give 32000 at 0.5 (the length checked at src/main.rs:195) and, as the model's own example, 8000 at 2.0 |
| `Wav.WavWriter.Create` | src/main.rs:92 | a created writer has the given header, no samples and is not finalised |
| `Wav.WavWriter.WriteSample` | src/main.rs:93-97 | a write appends exactly the sample unless the medium fails at that write, in which case nothing is appended |
| `Wav.WavWriter.Finalize` | src/main.rs:98 | finalisation succeeds as the medium allows and leaves the samples as they are |
| `Pipeline.Accepted` | src/main.rs:67-71 | a header is accepted exactly when it is 1 channel, 16000 Hz, 16 bits, integer samples, and no other |
| `Pipeline.CollectSamples` | src/main.rs:76-79 | `Ok` exactly when every sample decodes, then holding the samples in order; otherwise the invalid-sample error |
| `Pipeline.Converted` | src/main.rs:80-89 | at tempo 1.0 the output holds every sample moved one step toward zero, in order; otherwise it holds `OutputLength` samples |
| `Pipeline.Write` | src/main.rs:92-98 | success exactly when a finalised file is left, which then holds all of `out`; any file left carries the given header and a prefix of `out` |
| `Pipeline.Process` | src/main.rs:62-101 | a file is written only for an input that opens, has the accepted header and decodes completely, and it carries the input's header |
| `Pipeline.ProcessFile` | src/main.rs:62-101 | the returned result and the file left behind are exactly `Process`: open, format check, sample collection, conversion, then the writes |
| `Pipeline.WriteFile` | src/main.rs:92-98 | the returned result and the file left behind are exactly `Write`: create, writes in order that stop at the first failure, finalise |
| `Pipeline.RejectedBeforeReading` | src/main.rs:67-73 | a header other than 1 channel, 16000 Hz, 16 bits, integer gives the format error and no output, whatever the samples and the output medium |
| `Pipeline.BadSampleFailsFile` | src/main.rs:76-80 | with an accepted header, one sample that fails to decode fails the whole file with no output |
| `Pipeline.SuccessExactly` | src/main.rs:62-100 | success exactly when the file opens, has the accepted format, every sample decodes, and creation, every write and finalisation succeed; then the output is finalised, has the input's header and holds the converted samples in order |
| `Pipeline.FailureLeavesNoFinalizedFile` | src/main.rs:92-98 | a failure leaves no file exactly when it happens before the writer exists; a later one leaves an unfinalised file |
| `Pipeline.OutputSampleCount` | src/main.rs:83-98 | a successful output holds as many samples as the input at tempo 1.0, otherwise `OutputLength` of that count |
| `Pipeline.IdentityTempo` | src/main.rs:30-32 | at tempo 1.0 the output holds every input sample, in order, moved one step toward zero |
| `Pipeline.OneSecond` | src/main.rs:188-195 | 16000 accepted samples written without failure give the same header and 32000 samples at tempo 0.5, the length the integration test expects (within its tolerance of 100); 8000 samples at tempo 2.0 is the model's own example |
| `Batch.LastDot` | src/main.rs:113 | the index found holds a dot with no dot after it, and none is found only when the name has no dot |
| `Batch.Extension` | src/main.rs:113 | an extension is the dot-free tail after a dot that is not the first character; there is none for `..` or a name with no dot past its first character |
| `Batch.FileName` | src/main.rs:113 | its definition is the model (the last component unless it is `..`); `Batch.IsWav` states what it means for the filter |
| `Batch.IsWav` | src/main.rs:113 | its definition is the model (the file name's extension is exactly `wav`); `Batch.WavPaths` states which paths pass |
| `Batch.WavPaths` | src/main.rs:113 | a path passes the extension filter exactly when its last component ends in `.wav` after at least one other character (case-sensitive) |
| `Batch.WavNames` | src/main.rs:113 | the extension is exactly `wav` if and only if the name ends in `.wav` after at least one other character (case-sensitive) |
| `Batch.Selected` | src/main.rs:113 | its definition is the model (a regular file that passes `IsWav`); `Batch.CompletedRun` and `Batch.TasksAreMirrored` state that exactly these entries are processed |
| `Batch.IsPrefix` | src/main.rs:115-118 | its definition is the model (`strip_prefix` succeeds); `Batch.CompletesExactly` states that a selected entry failing it ends the run |
| `Batch.Mirror` | src/main.rs:115-119 | the output path begins with the output directory and continues with the path relative to the input directory |
| `Batch.OutputDir` | src/main.rs:120 | the directory created is the output path without its last component, so that component appended gives the output path back; `.` when there is no parent |
| `Batch.MirrorInjective` | src/main.rs:115-119 | two different paths under the input directory are written to two different output paths |
| `Batch.MirrorExample` | src/main.rs:113-121 | `root/sub/a.wav` is written to `outroot/sub/a.wav` after `outroot/sub` is created; `a.WAV` and `.wav` are not processed |
| `Batch.Step` | src/main.rs:113-125 | an aborted run stays as it is; a turn that aborts changes nothing else; otherwise processed files and reports only grow, by at most one each, and a report comes with a processed file |
| `Batch.StepStatus` | src/main.rs:113-121 | a turn of the loop leaves the run going exactly when it was going and its entry, if selected, lies under the input directory and gets its output directory |
| `Batch.Run` | src/main.rs:110-126 | over any walk, there are no more reports than processed files and no more processed files than walk items, and the loop never fails with the top-level directory error |
| `Batch.WholeRun` | src/main.rs:103-129 | the run fails with the output-directory error exactly when that directory is not created, and then nothing is processed, reported or written |
| `Batch.AbortIsFinal` | src/main.rs:118-121 | once a strip or sub-directory failure has ended the run, no later walk item changes anything |
| `Batch.RunBatch` | src/main.rs:103-129 | the returned result, the error reports and the files left on disk are exactly those of `WholeRun`: an output-directory failure ends the run at once; otherwise the loop selects `wav` files, mirrors their paths, and aborts on a strip or sub-directory failure but only reports a file's own failure |
| `Batch.CompletesExactly` | src/main.rs:110-128 | the loop over the walk ends with `Ok` exactly when every selected entry lies under the input directory and gets its output directory; how the files themselves fare never changes that |
| `Batch.CompletedRun` | src/main.rs:110-126 | a completed run processed exactly the regular `wav` files of the walk, in walk order, each mirrored into the output directory, and reported exactly the files that failed, in order |
| `Batch.TasksAreMirrored` | src/main.rs:113-119 | every file processed, whether or not the run completed, is a selected walk entry under the input directory whose output path mirrors it |
| `Batch.DiskFromTasks` | src/main.rs:119-125 | every file the run leaves on disk is at the output path of a processed file |
| `Batch.StepDisk` | src/main.rs:119-125 | a turn of the loop that does not abort changes the disk at most at its own output path |
| `Batch.DiskHoldsOutputs` | src/main.rs:115-125 | when the walk yields each path once, each selected file of a completed run has at its mirrored path exactly the file its processing left, or none when it left none |

## Left out

- The foreign stretch routine (`ssstretch`, src/main.rs:40-56) and its raw-pointer hand-off are not modelled. The engine is a parameter. Its output values are unconstrained, and only the buffer length and the identity case are specified.
- Floating-point detail is not modelled: f32 rounding, NaN and infinities, and the saturation of `as usize` and `as i16` on them. Conversions and the output length are computed over exact reals. In the code the output length is computed in f32 (src/main.rs:34-36): `1.0 / tempo` is rounded, and above 2^24 samples `input_len as f32` itself is rounded. The real output length can then differ from the model's by more than one sample: 67108867 samples at tempo 0.5 give 134217728 in f32 and 134217734 in the model.
- Stretch.StretchSamples, Pipeline.ProcessFile, Batch.RunBatch and the functions they are proved against require `tempo > 0`. The code never checks this. A zero or negative tempo would reach a float division and a saturating cast, which are outside the model.
- The WAV codec (`hound`) is not modelled: header parsing, sample decoding and the byte layout written. A decoded file is a header plus one outcome per sample. The output medium is one outcome each for creating the file, each write and finalising. Finalisation that `hound` attempts when a writer is dropped is not modelled, so a file left after a failed write is marked unfinalised.
- The directory walk (`walkdir`) is not modelled: its traversal order, file types and errors. The walk is a given sequence of items, and walk errors are dropped, as at src/main.rs:112.
- Filesystem effects are not modelled. The outcomes of `fs::create_dir_all` are inputs: one for the top-level output directory (src/main.rs:107) and one per entry for its output sub-directory.
- The disk holds only the files this run writes.
- Paths are sequences of components. Rust's path normalisation (`.` components, separators, roots) is not modelled.
- Argument parsing with `clap` (src/main.rs:9-26, 104) is plumbing and is not modelled.
- The text of error messages (src/main.rs:72, 118, 124) is not modelled. A report holds the input path and the kind of failure.
- The widths of the header fields (u16, u32) are not modelled, because no operation depends on them.
- The `as i32` length casts passed to the foreign call (src/main.rs:52, 54) are not modelled.
- The integration test's sine-wave generation and real files (src/main.rs:165-201) are not modelled. Only its length expectation is kept, as `Pipeline.OneSecond`.
