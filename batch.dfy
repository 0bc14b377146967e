/**
 The batch walk (`main` after argument parsing): every regular file under the
 input directory whose extension is exactly `wav` is processed into the same
 relative path under the output directory. A file that fails is reported and
 the walk goes on; a path that cannot be made relative or an output
 sub-directory that cannot be created ends the whole run.

 Paths are sequences of components. The directory walk is given as the
 sequence of items it yields, and each entry carries the outcome of creating
 its output directory and what processing the file meets (its contents and
 the behaviour of the output medium).
 */
module Batch {
  import opened Wrappers
  import opened Stretch
  import opened Wav
  import opened Pipeline

  type Path = seq<string>

  /** One item of the directory walk. */
  datatype WalkItem =
    | WalkFailed  // an error from the walk, dropped by `filter_map(Result::ok)`
    | Entry(path: Path, isFile: bool, mkdirOk: bool, source: Option<Reader>, sink: Sink)

  /** The errors that end the run. */
  datatype Fatal =
    | OutputDirFailed      // the top-level output directory could not be created
    | InvalidRelativePath  // `strip_prefix` failed
    | SubdirFailed         // an output sub-directory could not be created

  /** A file handed to `process_file`: where it is read from and where its output goes. */
  datatype FileTask = FileTask(input: Path, output: Path)

  /** A line on the error stream: the input path and why it failed. */
  datatype Report = Report(path: Path, error: PipelineError)

  /** Where the run has got to: files processed, errors reported, files left on disk, and whether it was aborted. */
  datatype BatchState = BatchState(tasks: seq<FileTask>, log: seq<Report>, disk: map<Path, WavFile>, status: Result<(), Fatal>)

  /** The index of the last `.` in a file name. */
  function LastDot(name: string): (r: Option<nat>)
    ensures r.Some? ==> r.value < |name| && name[r.value] == '.' && forall j :: r.value < j < |name| ==> name[j] != '.'
    ensures r.None? ==> forall j :: 0 <= j < |name| ==> name[j] != '.'
  {
    if name == [] then None
    else if name[|name| - 1] == '.' then Some(|name| - 1)
    else LastDot(name[..|name| - 1])
  }

  /**
   `Path::extension` of a file name: what follows the last `.`; there is none
   for `..`, for a name without a dot, or when the only dot leads the name.
   */
  function Extension(name: string): (r: Option<string>)
    ensures r.Some? ==>
      && 0 < |name| - |r.value| - 1 && name[|name| - |r.value| - 1] == '.'
      && name[|name| - |r.value|..] == r.value && forall j :: 0 <= j < |r.value| ==> r.value[j] != '.'
    ensures r.None? ==> name == ".." || forall j :: 0 < j < |name| ==> name[j] != '.'
    ensures name == ".." ==> r.None?
  {
    if name == ".." then None
    else
      match LastDot(name)
      case None => None
      case Some(k) => if k == 0 then None else Some(name[k + 1..])
  }

  /** `Path::file_name`: the last component, if there is one and it is not `..`. */
  function FileName(path: Path): Option<string>
  {
    if path == [] || path[|path| - 1] == ".." then None else Some(path[|path| - 1])
  }

  /** `e.path().extension() == Some("wav")`: exact and case-sensitive, so only a name ending in `.wav` after some other character passes. */
  predicate IsWav(path: Path)
  {
    FileName(path).Some? && Extension(FileName(path).value) == Some("wav")
  }

  /** The entries the walk processes: regular files with a `wav` extension. */
  predicate Selected(item: WalkItem)
  {
    item.Entry? && item.isFile && IsWav(item.path)
  }

  /** `strip_prefix` succeeds: the input directory's components begin the path. */
  predicate IsPrefix(prefix: Path, path: Path)
  {
    |prefix| <= |path| && path[..|prefix|] == prefix
  }

  /** `output_dir.join(rel_path)` where `rel_path` is `path` with the input directory stripped. */
  function Mirror(path: Path, inputDir: Path, outputDir: Path): (r: Path)
    requires IsPrefix(inputDir, path)
    ensures |r| == |outputDir| + |path| - |inputDir|
    ensures r[..|outputDir|] == outputDir && r[|outputDir|..] == path[|inputDir|..]
  {
    outputDir + path[|inputDir|..]
  }

  /** The directory created before writing: the output path's parent, or `.` when it has none. */
  function OutputDir(out: Path): (r: Path)
    ensures out != [] ==> r + [out[|out| - 1]] == out
    ensures out == [] ==> r == ["."]
  {
    if out == [] then ["."] else out[..|out| - 1]
  }

  /** One turn of the loop over the walk. */
  function Step(st: BatchState, item: WalkItem, inputDir: Path, outputDir: Path, tempo: real, engine: Engine): (r: BatchState)
    requires tempo > 0.0
    // an aborted run stays as it is, and a turn that aborts changes nothing else
    ensures st.status.Err? ==> r == st
    ensures r.status.Err? ==> r.tasks == st.tasks && r.log == st.log && r.disk == st.disk
    // otherwise tasks and reports only grow, by at most one each, and a report comes with a task
    ensures |st.tasks| <= |r.tasks| <= |st.tasks| + 1 && r.tasks[..|st.tasks|] == st.tasks
    ensures |st.log| <= |r.log| <= |st.log| + |r.tasks| - |st.tasks| && r.log[..|st.log|] == st.log
    ensures r.status.Err? && st.status.Ok? ==> r.status.error != OutputDirFailed
  {
    if st.status.Err? || !Selected(item) then st
    else if !IsPrefix(inputDir, item.path) then st.(status := Err(InvalidRelativePath))
    else if !item.mkdirOk then st.(status := Err(SubdirFailed))
    else
      var out := Mirror(item.path, inputDir, outputDir);
      var o := Process(item.source, item.sink, tempo, engine);
      BatchState(
        st.tasks + [FileTask(item.path, out)],
        st.log + (if o.result.Err? then [Report(item.path, o.result.error)] else []),
        if o.written.Some? then st.disk[out := o.written.value] else st.disk,
        st.status)
  }

  /** The state after the loop has gone over `walk`, starting from nothing done. */
  function Run(walk: seq<WalkItem>, inputDir: Path, outputDir: Path, tempo: real, engine: Engine): (r: BatchState)
    requires tempo > 0.0
    ensures |r.log| <= |r.tasks| <= |walk|
    ensures r.status.Err? ==> r.status.error != OutputDirFailed
  {
    if walk == [] then BatchState([], [], map[], Ok(()))
    else Step(Run(walk[..|walk| - 1], inputDir, outputDir, tempo, engine), walk[|walk| - 1], inputDir, outputDir, tempo, engine)
  }

  /** The whole run: create the output directory, then go over the walk. */
  function WholeRun(outputDirCreated: bool, inputDir: Path, outputDir: Path, tempo: real, engine: Engine, walk: seq<WalkItem>): (r: BatchState)
    requires tempo > 0.0
    ensures r.status == Err(OutputDirFailed) <==> !outputDirCreated
    ensures !outputDirCreated ==> r.tasks == [] && r.log == [] && r.disk == map[]
    ensures |r.log| <= |r.tasks| <= |walk|
  {
    if !outputDirCreated then BatchState([], [], map[], Err(OutputDirFailed))
    else Run(walk, inputDir, outputDir, tempo, engine)
  }

  /** Once the run is aborted, later items change nothing. */
  lemma {:induction false} AbortIsFinal(walk: seq<WalkItem>, k: nat, inputDir: Path, outputDir: Path, tempo: real, engine: Engine)
    requires tempo > 0.0 && k <= |walk|
    requires Run(walk[..k], inputDir, outputDir, tempo, engine).status.Err?
    ensures Run(walk, inputDir, outputDir, tempo, engine) == Run(walk[..k], inputDir, outputDir, tempo, engine)
  {
    if k < |walk| {
      assert walk[..|walk| - 1][..k] == walk[..k];
      AbortIsFinal(walk[..|walk| - 1], k, inputDir, outputDir, tempo, engine);
    } else {
      assert walk[..k] == walk;
    }
  }

  /** Going over one more item of the walk is one more turn of the loop. */
  lemma RunExtend(walk: seq<WalkItem>, i: nat, inputDir: Path, outputDir: Path, tempo: real, engine: Engine)
    requires tempo > 0.0 && i < |walk|
    ensures Run(walk[..i + 1], inputDir, outputDir, tempo, engine)
      == Step(Run(walk[..i], inputDir, outputDir, tempo, engine), walk[i], inputDir, outputDir, tempo, engine)
  {
    assert walk[..i + 1][..i] == walk[..i];
  }

  /** `main`: the loop over the walk, creating each output directory and isolating each file's failure. */
  method RunBatch(outputDirCreated: bool, inputDir: Path, outputDir: Path, tempo: real, engine: Engine, walk: seq<WalkItem>)
    returns (result: Result<(), Fatal>, log: seq<Report>, disk: map<Path, WavFile>, ghost tasks: seq<FileTask>)
    requires tempo > 0.0
    ensures result == WholeRun(outputDirCreated, inputDir, outputDir, tempo, engine, walk).status
    ensures log == WholeRun(outputDirCreated, inputDir, outputDir, tempo, engine, walk).log
    ensures disk == WholeRun(outputDirCreated, inputDir, outputDir, tempo, engine, walk).disk
    ensures tasks == WholeRun(outputDirCreated, inputDir, outputDir, tempo, engine, walk).tasks
  {
    log, disk, tasks := [], map[], [];
    if !outputDirCreated {
      return Err(OutputDirFailed), log, disk, tasks;
    }
    var i := 0;
    while i < |walk|
      invariant 0 <= i <= |walk|
      invariant BatchState(tasks, log, disk, Ok(())) == Run(walk[..i], inputDir, outputDir, tempo, engine)
    {
      var item := walk[i];
      RunExtend(walk, i, inputDir, outputDir, tempo, engine);
      if Selected(item) {
        if !IsPrefix(inputDir, item.path) {
          AbortIsFinal(walk, i + 1, inputDir, outputDir, tempo, engine);
          return Err(InvalidRelativePath), log, disk, tasks;
        }
        var out := Mirror(item.path, inputDir, outputDir);
        if !item.mkdirOk {
          AbortIsFinal(walk, i + 1, inputDir, outputDir, tempo, engine);
          return Err(SubdirFailed), log, disk, tasks;
        }
        var r, written := ProcessFile(item.source, item.sink, tempo, engine);
        if r.Err? {
          log := log + [Report(item.path, r.error)];
        }
        if written.Some? {
          disk := disk[out := written.value];
        }
        tasks := tasks + [FileTask(item.path, out)];
      }
      i := i + 1;
    }
    assert walk[..i] == walk;
    return Ok(()), log, disk, tasks;
  }

  /** The entries the walk selects, in walk order, with the output path each is mirrored to. */
  function SelectedTasks(walk: seq<WalkItem>, inputDir: Path, outputDir: Path): seq<FileTask>
    requires forall i :: 0 <= i < |walk| && Selected(walk[i]) ==> IsPrefix(inputDir, walk[i].path)
  {
    if walk == [] then []
    else
      var last := walk[|walk| - 1];
      SelectedTasks(walk[..|walk| - 1], inputDir, outputDir)
        + (if Selected(last) then [FileTask(last.path, Mirror(last.path, inputDir, outputDir))] else [])
  }

  /** The reports expected on the error stream: one per selected entry whose processing fails, in walk order. */
  function ExpectedLog(walk: seq<WalkItem>, tempo: real, engine: Engine): seq<Report>
    requires tempo > 0.0
  {
    if walk == [] then []
    else
      var last := walk[|walk| - 1];
      ExpectedLog(walk[..|walk| - 1], tempo, engine)
        + (if Selected(last) && Process(last.source, last.sink, tempo, engine).result.Err?
           then [Report(last.path, Process(last.source, last.sink, tempo, engine).result.error)]
           else [])
  }

  /** A turn of the loop leaves the run going exactly when it was going and its item, if selected, can be placed. */
  lemma StepStatus(st: BatchState, item: WalkItem, inputDir: Path, outputDir: Path, tempo: real, engine: Engine)
    requires tempo > 0.0
    ensures Step(st, item, inputDir, outputDir, tempo, engine).status.Ok? <==>
      st.status.Ok? && (Selected(item) ==> IsPrefix(inputDir, item.path) && item.mkdirOk)
  {
  }

  /**
   Failure isolation: the loop over the walk ends with `Ok` exactly when every
   selected entry lies under the input directory and gets its output
   directory; what happens while processing the files themselves never
   changes that. (`WholeRun` adds the top-level output directory in front.)
   */
  lemma {:induction false} CompletesExactly(walk: seq<WalkItem>, inputDir: Path, outputDir: Path, tempo: real, engine: Engine)
    requires tempo > 0.0
    ensures Run(walk, inputDir, outputDir, tempo, engine).status.Ok? <==>
      forall i :: 0 <= i < |walk| && Selected(walk[i]) ==> IsPrefix(inputDir, walk[i].path) && walk[i].mkdirOk
  {
    if walk != [] {
      var n := |walk| - 1;
      var init, last := walk[..n], walk[n];
      CompletesExactly(init, inputDir, outputDir, tempo, engine);
      var before := Run(init, inputDir, outputDir, tempo, engine);
      assert Run(walk, inputDir, outputDir, tempo, engine) == Step(before, last, inputDir, outputDir, tempo, engine);
      StepStatus(before, last, inputDir, outputDir, tempo, engine);
      assert forall i :: 0 <= i < n ==> init[i] == walk[i];
    }
  }

  /**
   A run that completes has handed to `process_file` exactly the regular
   `wav` files of the walk, in walk order, each with the output path that
   mirrors its path relative to the input directory, and has reported exactly
   the files whose processing failed.
   */
  lemma {:induction false} CompletedRun(walk: seq<WalkItem>, inputDir: Path, outputDir: Path, tempo: real, engine: Engine)
    requires tempo > 0.0
    requires Run(walk, inputDir, outputDir, tempo, engine).status.Ok?
    ensures forall i :: 0 <= i < |walk| && Selected(walk[i]) ==> IsPrefix(inputDir, walk[i].path)
    ensures Run(walk, inputDir, outputDir, tempo, engine).tasks == SelectedTasks(walk, inputDir, outputDir)
    ensures Run(walk, inputDir, outputDir, tempo, engine).log == ExpectedLog(walk, tempo, engine)
  {
    CompletesExactly(walk, inputDir, outputDir, tempo, engine);
    if walk != [] {
      var init := walk[..|walk| - 1];
      assert forall i :: 0 <= i < |init| ==> init[i] == walk[i];
      assert Run(init, inputDir, outputDir, tempo, engine).status.Ok?;
      CompletedRun(init, inputDir, outputDir, tempo, engine);
    }
  }

  /**
   Whatever happens, every task processed so far is a selected entry of the
   walk that lies under the input directory, and its output path mirrors it
   into the output directory.
   */
  lemma {:induction false} TasksAreMirrored(walk: seq<WalkItem>, inputDir: Path, outputDir: Path, tempo: real, engine: Engine)
    requires tempo > 0.0
    ensures forall t :: t in Run(walk, inputDir, outputDir, tempo, engine).tasks ==>
      && IsPrefix(inputDir, t.input) && IsWav(t.input) && t.output == Mirror(t.input, inputDir, outputDir)
      && exists i :: 0 <= i < |walk| && Selected(walk[i]) && walk[i].path == t.input
  {
    if walk != [] {
      var n := |walk| - 1;
      var init, last := walk[..n], walk[n];
      TasksAreMirrored(init, inputDir, outputDir, tempo, engine);
      var before := Run(init, inputDir, outputDir, tempo, engine);
      var after := Run(walk, inputDir, outputDir, tempo, engine);
      assert after == Step(before, last, inputDir, outputDir, tempo, engine);
      forall t | t in after.tasks
        ensures exists i :: 0 <= i < |walk| && Selected(walk[i]) && walk[i].path == t.input
      {
        if t in before.tasks {
          var i :| 0 <= i < |init| && Selected(init[i]) && init[i].path == t.input;
          assert walk[i] == init[i];
        } else {
          assert Selected(last) && t.input == last.path;
        }
      }
    }
  }

  /** Every file on disk is the output of a task: the run writes nowhere else. */
  lemma {:induction false} DiskFromTasks(walk: seq<WalkItem>, inputDir: Path, outputDir: Path, tempo: real, engine: Engine)
    requires tempo > 0.0
    ensures forall p :: p in Run(walk, inputDir, outputDir, tempo, engine).disk ==>
      exists t :: t in Run(walk, inputDir, outputDir, tempo, engine).tasks && t.output == p
  {
    if walk != [] {
      var n := |walk| - 1;
      var init, last := walk[..n], walk[n];
      DiskFromTasks(init, inputDir, outputDir, tempo, engine);
      var before := Run(init, inputDir, outputDir, tempo, engine);
      var after := Run(walk, inputDir, outputDir, tempo, engine);
      assert after == Step(before, last, inputDir, outputDir, tempo, engine);
      forall p | p in after.disk
        ensures exists t :: t in after.tasks && t.output == p
      {
        if p in before.disk {
          var t :| t in before.tasks && t.output == p;
          assert t in after.tasks;
        } else {
          assert after.tasks[|after.tasks| - 1].output == p;
        }
      }
    }
  }

  /** Paths under the same input directory that differ are mirrored to output paths that differ. */
  lemma MirrorInjective(p: Path, q: Path, inputDir: Path, outputDir: Path)
    requires IsPrefix(inputDir, p) && IsPrefix(inputDir, q) && p != q
    ensures Mirror(p, inputDir, outputDir) != Mirror(q, inputDir, outputDir)
  {
  }

  /**
   The file at the mirrored path of a selected entry is exactly the one its
   processing left, and there is none when it left none.
   */
  ghost predicate HoldsOutput(disk: map<Path, WavFile>, item: WalkItem, inputDir: Path, outputDir: Path, tempo: real, engine: Engine)
    requires tempo > 0.0
  {
    Selected(item) ==>
      && IsPrefix(inputDir, item.path)
      && var out := Mirror(item.path, inputDir, outputDir);
         var o := Process(item.source, item.sink, tempo, engine);
         (out in disk <==> o.written.Some?) && (o.written.Some? ==> disk[out] == o.written.value)
  }

  /** A turn of the loop that does not abort changes the disk at most at the mirrored path of its item. */
  lemma StepDisk(st: BatchState, item: WalkItem, inputDir: Path, outputDir: Path, tempo: real, engine: Engine, p: Path)
    requires tempo > 0.0 && st.status.Ok?
    requires Step(st, item, inputDir, outputDir, tempo, engine).status.Ok?
    requires Selected(item) ==> p != Mirror(item.path, inputDir, outputDir)
    ensures var disk := Step(st, item, inputDir, outputDir, tempo, engine).disk;
      (p in disk <==> p in st.disk) && (p in disk ==> disk[p] == st.disk[p])
  {
  }

  /** A turn of the loop that does not abort keeps the output of an earlier entry with a different path. */
  lemma HoldsAfterStep(st: BatchState, last: WalkItem, item: WalkItem, inputDir: Path, outputDir: Path, tempo: real, engine: Engine)
    requires tempo > 0.0 && st.status.Ok?
    requires Step(st, last, inputDir, outputDir, tempo, engine).status.Ok?
    requires HoldsOutput(st.disk, item, inputDir, outputDir, tempo, engine)
    requires Selected(item) && Selected(last) ==> item.path != last.path
    ensures HoldsOutput(Step(st, last, inputDir, outputDir, tempo, engine).disk, item, inputDir, outputDir, tempo, engine)
  {
    if Selected(item) {
      var out := Mirror(item.path, inputDir, outputDir);
      if Selected(last) {
        MirrorInjective(item.path, last.path, inputDir, outputDir);
      }
      StepDisk(st, last, inputDir, outputDir, tempo, engine, out);
    }
  }

  /** A selected entry processed onto a path that is still free leaves there exactly what its processing wrote. */
  lemma HoldsForLast(st: BatchState, last: WalkItem, inputDir: Path, outputDir: Path, tempo: real, engine: Engine)
    requires tempo > 0.0 && st.status.Ok?
    requires Step(st, last, inputDir, outputDir, tempo, engine).status.Ok?
    requires Selected(last) ==> Mirror(last.path, inputDir, outputDir) !in st.disk
    ensures HoldsOutput(Step(st, last, inputDir, outputDir, tempo, engine).disk, last, inputDir, outputDir, tempo, engine)
  {
  }

  /**
   The mirrored output of `lastPath` is still free when every file on disk is
   the mirrored output of a task, and every task comes from an entry whose
   path is not `lastPath`.
   */
  lemma FreshOutput(tasks: seq<FileTask>, disk: map<Path, WavFile>, init: seq<WalkItem>, lastPath: Path, inputDir: Path, outputDir: Path)
    requires forall t :: t in tasks ==>
      && IsPrefix(inputDir, t.input) && t.output == Mirror(t.input, inputDir, outputDir)
      && exists i :: 0 <= i < |init| && Selected(init[i]) && init[i].path == t.input
    requires forall p :: p in disk ==> exists t :: t in tasks && t.output == p
    requires forall i :: 0 <= i < |init| && init[i].Entry? ==> init[i].path != lastPath
    requires IsPrefix(inputDir, lastPath)
    ensures Mirror(lastPath, inputDir, outputDir) !in disk
  {
    var out := Mirror(lastPath, inputDir, outputDir);
    if out in disk {
      var t :| t in tasks && t.output == out;
      var j :| 0 <= j < |init| && Selected(init[j]) && init[j].path == t.input;
      MirrorInjective(t.input, lastPath, inputDir, outputDir);
      assert false;
    }
  }

  /** When the walk yields each path once, the output path of its last entry is still free before that entry. */
  lemma LastOutputIsNew(walk: seq<WalkItem>, inputDir: Path, outputDir: Path, tempo: real, engine: Engine)
    requires tempo > 0.0 && walk != []
    requires forall i, j :: 0 <= i < j < |walk| && walk[i].Entry? && walk[j].Entry? ==> walk[i].path != walk[j].path
    requires Selected(walk[|walk| - 1]) && IsPrefix(inputDir, walk[|walk| - 1].path)
    ensures Mirror(walk[|walk| - 1].path, inputDir, outputDir) !in Run(walk[..|walk| - 1], inputDir, outputDir, tempo, engine).disk
  {
    var n := |walk| - 1;
    var init, last := walk[..n], walk[n];
    var before := Run(init, inputDir, outputDir, tempo, engine);
    TasksAreMirrored(init, inputDir, outputDir, tempo, engine);
    DiskFromTasks(init, inputDir, outputDir, tempo, engine);
    assert forall i :: 0 <= i < |init| && init[i].Entry? ==> init[i].path != last.path by {
      assert forall i :: 0 <= i < |init| ==> init[i] == walk[i];
    }
    FreshOutput(before.tasks, before.disk, init, last.path, inputDir, outputDir);
  }

  /**
   When the walk yields each path once, every selected entry of a completed
   run has at its mirrored path exactly the file its processing left, and no
   file when it left none.
   */
  lemma {:induction false} DiskHoldsOutputs(walk: seq<WalkItem>, inputDir: Path, outputDir: Path, tempo: real, engine: Engine)
    requires tempo > 0.0
    requires forall i, j :: 0 <= i < j < |walk| && walk[i].Entry? && walk[j].Entry? ==> walk[i].path != walk[j].path
    requires Run(walk, inputDir, outputDir, tempo, engine).status.Ok?
    ensures forall i :: 0 <= i < |walk| ==>
      HoldsOutput(Run(walk, inputDir, outputDir, tempo, engine).disk, walk[i], inputDir, outputDir, tempo, engine)
  {
    if walk != [] {
      var n := |walk| - 1;
      var init, last := walk[..n], walk[n];
      assert forall i :: 0 <= i < n ==> init[i] == walk[i];
      var before := Run(init, inputDir, outputDir, tempo, engine);
      assert Run(walk, inputDir, outputDir, tempo, engine) == Step(before, last, inputDir, outputDir, tempo, engine);
      assert before.status.Ok?;
      DiskHoldsOutputs(init, inputDir, outputDir, tempo, engine);
      if Selected(last) {
        LastOutputIsNew(walk, inputDir, outputDir, tempo, engine);
      }
      HoldsForLast(before, last, inputDir, outputDir, tempo, engine);
      forall i | 0 <= i < n
        ensures HoldsOutput(Run(walk, inputDir, outputDir, tempo, engine).disk, walk[i], inputDir, outputDir, tempo, engine)
      {
        assert HoldsOutput(before.disk, init[i], inputDir, outputDir, tempo, engine);
        HoldsAfterStep(before, last, walk[i], inputDir, outputDir, tempo, engine);
      }
    }
  }

  /** The extension test accepts exactly the names that end in `.wav` after at least one other character. */
  lemma WavNames(name: string)
    ensures Extension(name) == Some("wav") <==> |name| > 4 && name[|name| - 4..] == ".wav"
  {
    var k := LastDot(name);
    if |name| > 4 && name[|name| - 4..] == ".wav" {
      var tail := name[|name| - 4..];
      assert name[|name| - 4] == tail[0] == '.';
      assert name[|name| - 3] == tail[1] && name[|name| - 2] == tail[2] && name[|name| - 1] == tail[3];
      assert k.Some? && k.value == |name| - 4;
      assert name[|name| - 3..] == tail[1..] == "wav";
      assert name != "..";
    }
    if Extension(name) == Some("wav") {
      assert name != ".." && k.Some? && k.value != 0;
      assert name[k.value + 1..] == "wav";
      assert k.value == |name| - 4;
      assert name[|name| - 4..] == [name[k.value]] + name[k.value + 1..];
    }
  }

  /** A path passes the extension filter exactly when its last component ends in `.wav` after some other character. */
  lemma WavPaths(path: Path)
    ensures IsWav(path) <==> path != [] && var name := path[|path| - 1]; |name| > 4 && name[|name| - 4..] == ".wav"
  {
    if path != [] {
      WavNames(path[|path| - 1]);
    }
  }

  /** `root/sub/a.wav` is written to `outroot/sub/a.wav`, after `outroot/sub` is created; `a.WAV` is not processed. */
  lemma MirrorExample()
    ensures IsWav(["root", "sub", "a.wav"]) && !IsWav(["root", "sub", "a.WAV"]) && !IsWav(["root", ".wav"])
    ensures IsPrefix(["root"], ["root", "sub", "a.wav"])
    ensures Mirror(["root", "sub", "a.wav"], ["root"], ["outroot"]) == ["outroot", "sub", "a.wav"]
    ensures OutputDir(["outroot", "sub", "a.wav"]) == ["outroot", "sub"]
  {
    WavPaths(["root", "sub", "a.wav"]);
    WavPaths(["root", "sub", "a.WAV"]);
    WavPaths(["root", ".wav"]);
    assert ["root", "sub", "a.wav"][1..] == ["sub", "a.wav"];
  }
}
