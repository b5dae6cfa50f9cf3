/**
 * `process_images`: the batch over the metadata files of one image folder.
 * The first file fixes the normalised camera coordinates and the two
 * mappings; every file is scanned for the images to keep, which are copied
 * by camera mode `"0"` (all) or `"1"` (the selected cameras). Progress
 * reports and the cancel answers are values of the run.
 */
module Batch {
  import opened Wrappers
  import opened Folder
  import opened Coords
  import opened ToolLog
  import opened Scanner
  import opened Naming
  import opened Copying

  /** The arguments of `process_images` besides the folders. */
  datatype Config = Config(
    saveMode: string,                    // `save_mode`: "0" all, "1" commented, "2" locked
    saveCam: string,                     // `save_cam`: "0" every camera, "1" the selected ones
    preselected: Option<seq<Coord>>,     // `preselected_cam_list`
    templates: Templates,                // `filename_templates`
    cancel: seq<bool>)                   // what `cancel_check()` answers before each file; absent answers are "no"

  /** `cancel_check and cancel_check()` before the file at position `i`. */
  predicate IsCancelled(cfg: Config, i: nat) {
    i < |cfg.cancel| && cfg.cancel[i]
  }

  /** One call of `progress_callback(current, total, message)`. */
  datatype Progress = Progress(current: nat, total: nat, message: string)

  const Processing := "処理中: "
  const Done := "完了: "
  const Finished := "処理完了"
  const CancelledMessage := "キャンセルされました"

  /** How the batch ended: normally, by a cancel, or by an exception. */
  datatype Outcome = Completed | Cancelled | Failed(error: Error)

  datatype Run = Run(outcome: Outcome, progress: seq<Progress>, out: Out)

  /** What the first file fixes: `mapping_BA` and `save_CAM_list`. */
  datatype Context = Context(ba: map<Coord, Coord>, selected: seq<Coord>)

  /**
   * The first file's work: its `.DIV` coordinates, normalised; the mappings;
   * the `list(get_original_from_converted([1,1], mapping_AB))` that raises
   * without a `[1, 1]`; and the cameras to copy in camera mode `"1"`.
   */
  function Prepare(folder: Folder, cfg: Config, name: string): Result<Context> {
    match ReadLines(folder, name)
    case Err(e) => Err(e)
    case Ok(lines) =>
      var raw := DivCoords(lines);
      if !Unpackable(raw) then Err(ValueError)
      else
        var adjusted := Adjusted(raw);
        if [1, 1] !in Pairing(adjusted, raw) then Err(TypeError)
        else Ok(Context(Pairing(raw, adjusted), if cfg.saveCam == "1" then cfg.preselected.GetOr(adjusted) else raw))
  }

  /** `copy_files`, `copy_select_files`, or no copy for any other camera mode. */
  function CopyStep(cfg: Config, env: Env, selected: seq<Coord>, out: Out): Copied {
    var files := env.info.files;
    if cfg.saveCam == "0" then Copied(CopyAll(files, PlannedNames(env, files), |files|, out), None)
    else if cfg.saveCam == "1" then CopySelect(env, selected, files, PlannedNames(env, files), |files|, out)
    else Copied(out, None)
  }

  /** One metadata file: `process_file`, then the copy step. */
  function FileStep(folder: Folder, cfg: Config, tools: map<Coord, string>, name: string, ctx: Context, out: Out): Copied {
    match ReadLines(folder, name)
    case Err(e) => Copied(out, Some(e))
    case Ok(lines) => CopyStep(cfg, Env(Scan(lines, cfg.saveMode), tools, ctx.ba, GeneratorOf(cfg.templates)), ctx.selected, out)
  }

  /** The first-file step of a folder, as a function of the file name. */
  function PrepareOf(folder: Folder, cfg: Config): string -> Result<Context> {
    name => Prepare(folder, cfg, name)
  }

  /** The per-file step of a folder, as a function of the file name, context and output. */
  function StepOf(folder: Folder, cfg: Config, tools: map<Coord, string>): (string, Context, Out) -> Copied {
    (name, ctx, out) => FileStep(folder, cfg, tools, name, ctx, out)
  }

  /** The context for the file at position `i`: the first file prepares it. */
  function Prepared(files: seq<string>, i: nat, ctx: Context, prepare: string -> Result<Context>): Result<Context>
    requires i < |files|
  {
    if files[i] == files[0] then prepare(files[i]) else Ok(ctx)
  }

  /**
   * The batch loop from position `i`, over any first-file step and per-file
   * step (`Process` passes those of the folder).
   */
  function RunFrom(cfg: Config, files: seq<string>, i: nat, ctx: Context, progress: seq<Progress>, out: Out,
                   prepare: string -> Result<Context>, step: (string, Context, Out) -> Copied): Run
    requires i <= |files|
    decreases |files| - i
  {
    if i == |files| then Run(Completed, progress + [Progress(|files|, |files|, Finished)], out)
    else if IsCancelled(cfg, i) then Run(Cancelled, progress + [Progress(i, |files|, CancelledMessage)], out)
    else
      var started := progress + [Progress(i, |files|, Processing + files[i])];
      match Prepared(files, i, ctx, prepare)
      case Err(e) => Run(Failed(e), started, out)
      case Ok(c) =>
        var s := step(files[i], c, out);
        if s.error.Some? then Run(Failed(s.error.value), started, s.out)
        else RunFrom(cfg, files, i + 1, c, started + [Progress(i + 1, |files|, Done + files[i])], s.out, prepare, step)
  }

  /**
   * `process_images` with the tool log's lines (`None` when the log is
   * missing) and the names already in the output folder.
   */
  function Process(folder: Folder, log: Option<seq<string>>, output: set<string>, cfg: Config): Run {
    if log.None? then Run(Failed(FileNotFound), [], Out(output, []))
    else RunFrom(cfg, MetadataFiles(folder), 0, Context(map[], []), [], Out(output, []),
                 PrepareOf(folder, cfg), StepOf(folder, cfg, ToolComments(log.value)))
  }

  // ---------------------------------------------------------------------
  // The methods

  method PrepareContext(folder: Folder, cfg: Config, name: string) returns (r: Result<Context>)
    ensures r == Prepare(folder, cfg, name)
  {
    var read := ReadLines(folder, name);
    if read.Err? {
      return Err(read.error);
    }
    var raw := ProcessFirstFile(read.value);
    var adjusted := AdjustSaveCamList(raw);
    if adjusted.Err? {
      return Err(adjusted.error);
    }
    var ab, ba := CreateMapping(raw, adjusted.value);
    if [1, 1] !in ab {
      return Err(TypeError);
    }
    var selected := raw;
    if cfg.saveCam == "1" {
      selected := if cfg.preselected.Some? then cfg.preselected.value else adjusted.value;
    }
    return Ok(Context(ba, selected));
  }

  method ProcessOne(folder: Folder, cfg: Config, tools: map<Coord, string>, name: string, ctx: Context, out: Out)
    returns (c: Copied)
    ensures c == FileStep(folder, cfg, tools, name, ctx, out)
  {
    var read := ReadLines(folder, name);
    if read.Err? {
      return Copied(out, Some(read.error));
    }
    var info := ProcessFile(read.value, cfg.saveMode);
    var env := Env(info, tools, ctx.ba, GeneratorOf(cfg.templates));
    if cfg.saveCam == "0" {
      var r := CopyFiles(env, out);
      c := Copied(r, None);
    } else if cfg.saveCam == "1" {
      c := CopySelectFiles(env, ctx.selected, out);
    } else {
      c := Copied(out, None);
    }
  }

  method ProcessImages(folder: Folder, log: Option<seq<string>>, output: set<string>, cfg: Config) returns (r: Run)
    ensures r == Process(folder, log, output, cfg)
  {
    var parsed := ParseCammasterLog(log);
    if parsed.Err? {
      return Run(Failed(parsed.error), [], Out(output, []));
    }
    var tools := parsed.value;
    var files := MetadataFiles(folder);
    var ctx := Context(map[], []);
    var progress: seq<Progress> := [];
    var out := Out(output, []);
    var i := 0;
    ProcessStart(folder, log, output, cfg);
    while i < |files|
      invariant i <= |files|
      invariant RunFrom(cfg, files, i, ctx, progress, out, PrepareOf(folder, cfg), StepOf(folder, cfg, tools)) ==
                Process(folder, log, output, cfg)
      decreases |files| - i
    {
      var f := files[i];
      if IsCancelled(cfg, i) {
        RunFromExit(cfg, files, i, ctx, progress, out, PrepareOf(folder, cfg), StepOf(folder, cfg, tools));
        return Run(Cancelled, progress + [Progress(i, |files|, CancelledMessage)], out);
      }
      ghost var ctx0, progress0 := ctx, progress;
      progress := progress + [Progress(i, |files|, Processing + f)];
      if f == files[0] {
        var prepared := PrepareContext(folder, cfg, f);
        if prepared.Err? {
          RunFromExit(cfg, files, i, ctx0, progress0, out, PrepareOf(folder, cfg), StepOf(folder, cfg, tools));
          return Run(Failed(prepared.error), progress, out);
        }
        ctx := prepared.value;
      }
      var c := ProcessOne(folder, cfg, tools, f, ctx, out);
      if c.error.Some? {
        ProcessStepFails(folder, cfg, tools, files, i, ctx0, progress0, out, ctx, c);
        return Run(Failed(c.error.value), progress, c.out);
      }
      ProcessNext(folder, cfg, tools, files, i, ctx0, progress0, out, ctx, c);
      out := c.out;
      progress := progress + [Progress(i + 1, |files|, Done + f)];
      i := i + 1;
    }
    return Run(Completed, progress + [Progress(|files|, |files|, Finished)], out);
  }

  /** With a tool log, the batch is the loop from the first file with nothing prepared, reported or copied. */
  lemma ProcessStart(folder: Folder, log: Option<seq<string>>, output: set<string>, cfg: Config)
    requires log.Some?
    ensures Process(folder, log, output, cfg) ==
            RunFrom(cfg, MetadataFiles(folder), 0, Context(map[], []), [], Out(output, []),
                    PrepareOf(folder, cfg), StepOf(folder, cfg, ToolComments(log.value)))
  {
  }

  /** The loop ends at a file that is cancelled or whose preparation raises. */
  lemma RunFromExit(cfg: Config, files: seq<string>, i: nat, ctx: Context, progress: seq<Progress>, out: Out,
                    prepare: string -> Result<Context>, step: (string, Context, Out) -> Copied)
    requires i < |files|
    ensures IsCancelled(cfg, i) ==>
              RunFrom(cfg, files, i, ctx, progress, out, prepare, step) ==
              Run(Cancelled, progress + [Progress(i, |files|, CancelledMessage)], out)
    ensures !IsCancelled(cfg, i) && Prepared(files, i, ctx, prepare).Err? ==>
              RunFrom(cfg, files, i, ctx, progress, out, prepare, step) ==
              Run(Failed(Prepared(files, i, ctx, prepare).error), progress + [Progress(i, |files|, Processing + files[i])], out)
  {
  }

  /** The loop ends at a file whose copy step raises. */
  lemma ProcessStepFails(folder: Folder, cfg: Config, tools: map<Coord, string>, files: seq<string>, i: nat,
                         ctx0: Context, progress: seq<Progress>, out: Out, ctx: Context, c: Copied)
    requires i < |files| && !IsCancelled(cfg, i)
    requires files[i] == files[0] ==> Prepare(folder, cfg, files[i]) == Ok(ctx)
    requires files[i] != files[0] ==> ctx == ctx0
    requires c == FileStep(folder, cfg, tools, files[i], ctx, out) && c.error.Some?
    ensures RunFrom(cfg, files, i, ctx0, progress, out, PrepareOf(folder, cfg), StepOf(folder, cfg, tools)) ==
            Run(Failed(c.error.value), progress + [Progress(i, |files|, Processing + files[i])], c.out)
  {
    assert Prepared(files, i, ctx0, PrepareOf(folder, cfg)) == Ok(ctx);
    assert StepOf(folder, cfg, tools)(files[i], ctx, out) == c;
  }

  /** `RunFromNext` for the steps of a folder. */
  lemma ProcessNext(folder: Folder, cfg: Config, tools: map<Coord, string>, files: seq<string>, i: nat,
                    ctx0: Context, progress: seq<Progress>, out: Out, ctx: Context, c: Copied)
    requires i < |files| && !IsCancelled(cfg, i)
    requires files[i] == files[0] ==> Prepare(folder, cfg, files[i]) == Ok(ctx)
    requires files[i] != files[0] ==> ctx == ctx0
    requires c == FileStep(folder, cfg, tools, files[i], ctx, out) && c.error.None?
    ensures RunFrom(cfg, files, i, ctx0, progress, out, PrepareOf(folder, cfg), StepOf(folder, cfg, tools)) ==
            RunFrom(cfg, files, i + 1, ctx, progress + [Progress(i, |files|, Processing + files[i])] +
                                            [Progress(i + 1, |files|, Done + files[i])], c.out,
                    PrepareOf(folder, cfg), StepOf(folder, cfg, tools))
  {
    RunFromNext(cfg, files, i, ctx0, progress, out, PrepareOf(folder, cfg), StepOf(folder, cfg, tools), ctx, c);
  }

  /** A file that is not cancelled, is prepared and copies without raising hands on to the next one. */
  lemma RunFromNext(cfg: Config, files: seq<string>, i: nat, ctx: Context, progress: seq<Progress>, out: Out,
                    prepare: string -> Result<Context>, step: (string, Context, Out) -> Copied, c: Context, s: Copied)
    requires i < |files| && !IsCancelled(cfg, i)
    requires Prepared(files, i, ctx, prepare) == Ok(c) && step(files[i], c, out) == s && s.error.None?
    ensures RunFrom(cfg, files, i, ctx, progress, out, prepare, step) ==
            RunFrom(cfg, files, i + 1, c, progress + [Progress(i, |files|, Processing + files[i])] +
                                          [Progress(i + 1, |files|, Done + files[i])], s.out, prepare, step)
  {
  }

  // ---------------------------------------------------------------------
  // The first file

  /**
   * The first file raises `FileNotFoundError` when it cannot be read,
   * `ValueError` when its coordinates cannot be normalised, and `TypeError`
   * exactly when `[1, 1]` is not among the normalised coordinates.
   */
  lemma PrepareErrors(folder: Folder, cfg: Config, name: string)
    ensures name !in folder.files <==> Prepare(folder, cfg, name) == Err(FileNotFound)
    ensures name in folder.files ==>
              var raw := DivCoords(folder.files[name]);
              (Prepare(folder, cfg, name) == Err(ValueError) <==> !Unpackable(raw)) &&
              (Prepare(folder, cfg, name) == Err(TypeError) <==> Unpackable(raw) && [1, 1] !in Adjusted(raw)) &&
              (Prepare(folder, cfg, name).Ok? <==> Unpackable(raw) && [1, 1] in Adjusted(raw))
  {
    if name in folder.files {
      var raw := DivCoords(folder.files[name]);
      if Unpackable(raw) {
        PairingKeys(Adjusted(raw), raw, [1, 1]);
      }
    }
  }

  /**
   * A prepared context maps every raw coordinate of the first file to its
   * normalised one, and selects the preselected cameras, else all normalised
   * ones, in camera mode `"1"`.
   */
  lemma PrepareContextOf(folder: Folder, cfg: Config, name: string)
    requires Prepare(folder, cfg, name).Ok?
    ensures name in folder.files
    ensures var raw := DivCoords(folder.files[name]);
            var ctx := Prepare(folder, cfg, name).value;
            Unpackable(raw) &&
            ctx.ba == Pairing(raw, Adjusted(raw)) &&
            (forall c :: c in raw <==> c in ctx.ba) &&
            (cfg.saveCam == "1" ==> ctx.selected == cfg.preselected.GetOr(Adjusted(raw))) &&
            (cfg.saveCam != "1" ==> ctx.selected == raw)
  {
    var raw := DivCoords(folder.files[name]);
    forall c
      ensures c in raw <==> c in Pairing(raw, Adjusted(raw))
    {
      PairingKeys(raw, Adjusted(raw), c);
    }
  }

  /**
   * Without a preselection, camera mode `"1"` selects the camera list the
   * selection dialog offers (`get_camera_list` of the same folder).
   */
  lemma PrepareSelectsCameraList(folder: Folder, cfg: Config)
    requires MetadataFiles(folder) != [] && cfg.saveCam == "1" && cfg.preselected.None?
    requires Prepare(folder, cfg, MetadataFiles(folder)[0]).Ok?
    ensures CameraList(folder) == Ok(Prepare(folder, cfg, MetadataFiles(folder)[0]).value.selected)
  {
  }

  // ---------------------------------------------------------------------
  // Progress reports and outcomes

  /** The reports of the first `k` files: started, then done. */
  function Reports(files: seq<string>, k: nat): (p: seq<Progress>)
    requires k <= |files|
    ensures |p| == 2 * k
  {
    if k == 0 then []
    else Reports(files, k - 1) + [Progress(k - 1, |files|, Processing + files[k - 1]), Progress(k, |files|, Done + files[k - 1])]
  }

  /**
   * The reports of a run: those of the `k` files done, then one more — the
   * end report, the cancel report, or the start of the file that raised.
   * Nothing was cancelled before file `k`.
   */
  predicate Shaped(cfg: Config, files: seq<string>, r: Run) {
    |r.progress| % 2 == 1 && |r.progress| / 2 <= |files| &&
    var k := |r.progress| / 2;
    var last := r.progress[|r.progress| - 1];
    r.progress[..|r.progress| - 1] == Reports(files, k) &&
    (forall j :: 0 <= j < k ==> !IsCancelled(cfg, j)) &&
    match r.outcome
    case Completed => k == |files| && last == Progress(k, k, Finished)
    case Cancelled => k < |files| && IsCancelled(cfg, k) && last == Progress(k, |files|, CancelledMessage)
    case Failed(_) => k < |files| && !IsCancelled(cfg, k) && last == Progress(k, |files|, Processing + files[k])
  }

  /** Reading a file and copying its images only adds copies that overwrite nothing. */
  lemma FileStepExtends(folder: Folder, cfg: Config, tools: map<Coord, string>, name: string, ctx: Context, out: Out)
    ensures Extends(out, FileStep(folder, cfg, tools, name, ctx, out).out)
  {
    match ReadLines(folder, name)
    case Err(_) =>
      ExtendsRefl(out);
    case Ok(lines) =>
      var env := Env(Scan(lines, cfg.saveMode), tools, ctx.ba, GeneratorOf(cfg.templates));
      var files := env.info.files;
      if cfg.saveCam == "0" {
        CopyAllFollows(files, PlannedNames(env, files), |files|, out);
      } else if cfg.saveCam == "1" {
        CopySelectFollows(env, ctx.selected, files, PlannedNames(env, files), |files|, out);
      } else {
        ExtendsRefl(out);
      }
  }

  /** The run that stops at file `k` — by a cancel, by an exception, or at the end — is `Shaped`. */
  lemma ShapedStop(cfg: Config, files: seq<string>, k: nat, r: Run)
    requires k <= |files| && forall j :: 0 <= j < k ==> !IsCancelled(cfg, j)
    requires r.outcome.Completed? ==> k == |files| && r.progress == Reports(files, k) + [Progress(k, k, Finished)]
    requires r.outcome.Cancelled? ==>
               k < |files| && IsCancelled(cfg, k) && r.progress == Reports(files, k) + [Progress(k, |files|, CancelledMessage)]
    requires r.outcome.Failed? ==>
               k < |files| && !IsCancelled(cfg, k) && r.progress == Reports(files, k) + [Progress(k, |files|, Processing + files[k])]
    ensures Shaped(cfg, files, r)
  {
    assert |r.progress| == 2 * k + 1;
    OddHalf(k);
    assert r.progress[..2 * k] == Reports(files, k);
  }

  lemma OddHalf(k: nat)
    ensures (2 * k + 1) % 2 == 1 && (2 * k + 1) / 2 == k
  {
  }

  /** A per-file step that only adds copies that overwrite nothing. */
  ghost predicate StepExtends(step: (string, Context, Out) -> Copied) {
    forall name, ctx, out :: Extends(out, step(name, ctx, out).out)
  }

  lemma FolderStepExtends(folder: Folder, cfg: Config, tools: map<Coord, string>)
    ensures StepExtends(StepOf(folder, cfg, tools))
  {
    forall name, ctx, out
      ensures Extends(out, StepOf(folder, cfg, tools)(name, ctx, out).out)
    {
      FileStepExtends(folder, cfg, tools, name, ctx, out);
    }
  }

  lemma {:induction false} RunFromShape(cfg: Config, files: seq<string>, i: nat, ctx: Context, out0: Out, out: Out,
                                        prepare: string -> Result<Context>, step: (string, Context, Out) -> Copied)
    requires i <= |files| && Extends(out0, out) && StepExtends(step)
    requires forall j :: 0 <= j < i ==> !IsCancelled(cfg, j)
    ensures var r := RunFrom(cfg, files, i, ctx, Reports(files, i), out, prepare, step);
            Shaped(cfg, files, r) && Extends(out0, r.out)
    decreases |files| - i, 1
  {
    if GoesOn(cfg, files, i, ctx, out, prepare, step) {
      RunFromShapeNext(cfg, files, i, ctx, out0, out, prepare, step);
    } else {
      RunFromShapeStop(cfg, files, i, ctx, out0, out, prepare, step);
    }
  }

  /** The step of `RunFromShape` past a file that goes on. */
  lemma {:induction false} RunFromShapeNext(cfg: Config, files: seq<string>, i: nat, ctx: Context, out0: Out, out: Out,
                                            prepare: string -> Result<Context>, step: (string, Context, Out) -> Copied)
    requires i <= |files| && Extends(out0, out) && StepExtends(step) && GoesOn(cfg, files, i, ctx, out, prepare, step)
    requires forall j :: 0 <= j < i ==> !IsCancelled(cfg, j)
    ensures var r := RunFrom(cfg, files, i, ctx, Reports(files, i), out, prepare, step);
            Shaped(cfg, files, r) && Extends(out0, r.out)
    decreases |files| - i, 0
  {
    var c := Prepared(files, i, ctx, prepare).value;
    var s := step(files[i], c, out);
    assert Extends(out, s.out);
    ExtendsTrans(out0, out, s.out);
    RunFromNext(cfg, files, i, ctx, Reports(files, i), out, prepare, step, c, s);
    ReportsNext(files, i);
    RunFromShape(cfg, files, i + 1, c, out0, s.out, prepare, step);
  }

  /** A run that stops at file `i` is `Shaped` and has only added copies that overwrite nothing. */
  lemma RunFromShapeStop(cfg: Config, files: seq<string>, i: nat, ctx: Context, out0: Out, out: Out,
                         prepare: string -> Result<Context>, step: (string, Context, Out) -> Copied)
    requires i <= |files| && Extends(out0, out) && StepExtends(step) && !GoesOn(cfg, files, i, ctx, out, prepare, step)
    requires forall j :: 0 <= j < i ==> !IsCancelled(cfg, j)
    ensures var r := RunFrom(cfg, files, i, ctx, Reports(files, i), out, prepare, step);
            Shaped(cfg, files, r) && Extends(out0, r.out)
  {
    var r := RunFrom(cfg, files, i, ctx, Reports(files, i), out, prepare, step);
    if i < |files| && !IsCancelled(cfg, i) && Prepared(files, i, ctx, prepare).Ok? {
      var s := step(files[i], Prepared(files, i, ctx, prepare).value, out);
      assert Extends(out, s.out);
      ExtendsTrans(out0, out, s.out);
    }
    ShapedStop(cfg, files, i, r);
  }

  lemma ReportsNext(files: seq<string>, i: nat)
    requires i < |files|
    ensures Reports(files, i) + [Progress(i, |files|, Processing + files[i])] + [Progress(i + 1, |files|, Done + files[i])] ==
            Reports(files, i + 1)
  {
  }

  /**
   * Every run with a tool log reports as `Shaped` says, and adds to the
   * output folder only copies under names that were not there and are all
   * different.
   */
  lemma ProcessShape(folder: Folder, log: Option<seq<string>>, output: set<string>, cfg: Config)
    requires log.Some?
    ensures var r := Process(folder, log, output, cfg);
            Shaped(cfg, MetadataFiles(folder), r) && Extends(Out(output, []), r.out) &&
            (forall i :: 0 <= i < |r.out.copies| ==> r.out.copies[i].target !in output) &&
            (forall i, j :: 0 <= i < j < |r.out.copies| ==> r.out.copies[i].target != r.out.copies[j].target)
  {
    var out0 := Out(output, []);
    ExtendsRefl(out0);
    FolderStepExtends(folder, cfg, ToolComments(log.value));
    RunFromShape(cfg, MetadataFiles(folder), 0, Context(map[], []), out0, out0,
                 PrepareOf(folder, cfg), StepOf(folder, cfg, ToolComments(log.value)));
    var r := Process(folder, log, output, cfg);
    assert r.out.copies[0..] == r.out.copies;
    NoOverwriteMeans(output, r.out.copies);
  }

  /** Every report counts files done out of the number of metadata files. */
  lemma ProcessProgressBounded(folder: Folder, log: Option<seq<string>>, output: set<string>, cfg: Config)
    ensures var r := Process(folder, log, output, cfg);
            forall p :: p in r.progress ==> p.current <= p.total == |MetadataFiles(folder)|
  {
    if log.Some? {
      ProcessShape(folder, log, output, cfg);
      ShapedBounded(cfg, MetadataFiles(folder), Process(folder, log, output, cfg));
    }
  }

  lemma ShapedBounded(cfg: Config, files: seq<string>, r: Run)
    requires Shaped(cfg, files, r)
    ensures forall p :: p in r.progress ==> p.current <= p.total == |files|
  {
    ReportsBounded(files, |r.progress| / 2);
    assert r.progress == r.progress[..|r.progress| - 1] + [r.progress[|r.progress| - 1]];
  }

  lemma {:induction false} ReportsBounded(files: seq<string>, k: nat)
    requires k <= |files|
    ensures forall p :: p in Reports(files, k) ==> p.current <= p.total == |files|
  {
    if k > 0 {
      ReportsBounded(files, k - 1);
    }
  }

  // ---------------------------------------------------------------------
  // What is copied

  /** The images `process_file` keeps in a file (none when it cannot be read). */
  function KeptIn(folder: Folder, saveMode: string, name: string): seq<string> {
    if name in folder.files then Scan(folder.files[name], saveMode).files else []
  }

  /** The images kept in the first `k` files, in file order. */
  function KeptImages(folder: Folder, saveMode: string, files: seq<string>, k: nat): seq<string>
    requires k <= |files|
  {
    if k == 0 then [] else KeptImages(folder, saveMode, files, k - 1) + KeptIn(folder, saveMode, files[k - 1])
  }

  lemma SourcesAppend(a: seq<Copy>, b: seq<Copy>)
    ensures Sources(a + b) == Sources(a) + Sources(b)
  {
    var s := Sources(a + b);
    assert forall i :: 0 <= i < |a| + |b| ==> s[i] == (Sources(a) + Sources(b))[i];
  }

  lemma NewCopiesAppend(a: seq<Copy>, b: seq<Copy>, c: seq<Copy>)
    requires |a| <= |b| <= |c| && b[..|a|] == a && c[..|b|] == b
    ensures c[|a|..] == b[|a|..] + c[|b|..]
  {
    assert c == b + c[|b|..];
  }

  /** In camera mode `"0"` a file's copies are its kept images, in order. */
  lemma FileStepSourcesAll(folder: Folder, cfg: Config, tools: map<Coord, string>, name: string, ctx: Context, out: Out)
    requires cfg.saveCam == "0"
    ensures var s := FileStep(folder, cfg, tools, name, ctx, out);
            (s.error.Some? ==> s.out == out) &&
            (s.error.None? ==>
              |out.copies| <= |s.out.copies| && s.out.copies[..|out.copies|] == out.copies &&
              Sources(s.out.copies[|out.copies|..]) == KeptIn(folder, cfg.saveMode, name))
  {
    if name in folder.files {
      var env := Env(Scan(folder.files[name], cfg.saveMode), tools, ctx.ba, GeneratorOf(cfg.templates));
      var files := env.info.files;
      var planned := PlannedNames(env, files);
      CopyAllFollows(files, planned, |files|, out);
      var r := CopyAll(files, planned, |files|, out);
      FollowsSources(Plan(files, planned, |files|), r.copies[|out.copies|..]);
      PlanSources(files, planned, |files|);
      assert files[..|files|] == files;
    }
  }

  /** A per-file step whose copies, when it does not raise, are the images `kept` names. */
  ghost predicate StepCopies(step: (string, Context, Out) -> Copied, kept: string -> seq<string>) {
    forall name, ctx, out ::
      var s := step(name, ctx, out);
      (s.error.Some? ==> s.out == out) &&
      (s.error.None? ==>
         |out.copies| <= |s.out.copies| && s.out.copies[..|out.copies|] == out.copies &&
         Sources(s.out.copies[|out.copies|..]) == kept(name))
  }

  /** The images kept in the first `k` files, for any per-file choice. */
  function KeptBy(kept: string -> seq<string>, files: seq<string>, k: nat): seq<string>
    requires k <= |files|
  {
    if k == 0 then [] else KeptBy(kept, files, k - 1) + kept(files[k - 1])
  }

  lemma {:induction false} KeptByFolder(folder: Folder, saveMode: string, files: seq<string>, k: nat)
    requires k <= |files|
    ensures KeptBy(name => KeptIn(folder, saveMode, name), files, k) == KeptImages(folder, saveMode, files, k)
  {
    if k > 0 {
      KeptByFolder(folder, saveMode, files, k - 1);
    }
  }

  lemma FolderStepCopies(folder: Folder, cfg: Config, tools: map<Coord, string>)
    requires cfg.saveCam == "0"
    ensures StepCopies(StepOf(folder, cfg, tools), name => KeptIn(folder, cfg.saveMode, name))
  {
    forall name, ctx, out
      ensures var s := StepOf(folder, cfg, tools)(name, ctx, out);
              (s.error.Some? ==> s.out == out) &&
              (s.error.None? ==>
                 |out.copies| <= |s.out.copies| && s.out.copies[..|out.copies|] == out.copies &&
                 Sources(s.out.copies[|out.copies|..]) == KeptIn(folder, cfg.saveMode, name))
    {
      FileStepSourcesAll(folder, cfg, tools, name, ctx, out);
    }
  }

  /** A run whose output has, after `out0`, copies of exactly the images kept in the first `k` files. */
  ghost predicate CopiedUpTo(r: Run, out0: Out, kept: string -> seq<string>, files: seq<string>, k: nat) {
    k <= |files| && |r.progress| == 2 * k + 1 &&
    |out0.copies| <= |r.out.copies| && Sources(r.out.copies[|out0.copies|..]) == KeptBy(kept, files, k)
  }

  /** File `i` is not cancelled, is prepared, and copies without raising: the run goes on. */
  predicate GoesOn(cfg: Config, files: seq<string>, i: nat, ctx: Context, out: Out,
                   prepare: string -> Result<Context>, step: (string, Context, Out) -> Copied)
    requires i <= |files|
  {
    i < |files| && !IsCancelled(cfg, i) && Prepared(files, i, ctx, prepare).Ok? &&
    step(files[i], Prepared(files, i, ctx, prepare).value, out).error.None?
  }

  lemma {:induction false} RunFromSources(cfg: Config, files: seq<string>, i: nat, ctx: Context, out0: Out, out: Out,
                                          prepare: string -> Result<Context>, step: (string, Context, Out) -> Copied,
                                          kept: string -> seq<string>)
    requires i <= |files| && StepCopies(step, kept)
    requires |out0.copies| <= |out.copies| && out.copies[..|out0.copies|] == out0.copies
    requires Sources(out.copies[|out0.copies|..]) == KeptBy(kept, files, i)
    ensures exists k :: i <= k && CopiedUpTo(RunFrom(cfg, files, i, ctx, Reports(files, i), out, prepare, step), out0, kept, files, k)
    decreases |files| - i, 1
  {
    if GoesOn(cfg, files, i, ctx, out, prepare, step) {
      RunFromSourcesNext(cfg, files, i, ctx, out0, out, prepare, step, kept);
    } else {
      RunFromStops(cfg, files, i, ctx, Reports(files, i), out, prepare, step, kept);
      assert CopiedUpTo(RunFrom(cfg, files, i, ctx, Reports(files, i), out, prepare, step), out0, kept, files, i);
    }
  }

  /** The step of `RunFromSources` past a file that goes on. */
  lemma {:induction false} RunFromSourcesNext(cfg: Config, files: seq<string>, i: nat, ctx: Context, out0: Out, out: Out,
                                              prepare: string -> Result<Context>, step: (string, Context, Out) -> Copied,
                                              kept: string -> seq<string>)
    requires i <= |files| && StepCopies(step, kept) && GoesOn(cfg, files, i, ctx, out, prepare, step)
    requires |out0.copies| <= |out.copies| && out.copies[..|out0.copies|] == out0.copies
    requires Sources(out.copies[|out0.copies|..]) == KeptBy(kept, files, i)
    ensures exists k :: i <= k && CopiedUpTo(RunFrom(cfg, files, i, ctx, Reports(files, i), out, prepare, step), out0, kept, files, k)
    decreases |files| - i, 0
  {
    var c := Prepared(files, i, ctx, prepare).value;
    var s := step(files[i], c, out);
    assert |out.copies| <= |s.out.copies| && s.out.copies[..|out.copies|] == out.copies &&
           Sources(s.out.copies[|out.copies|..]) == kept(files[i]);
    NewCopiesAppend(out0.copies, out.copies, s.out.copies);
    SourcesAppend(out.copies[|out0.copies|..], s.out.copies[|out.copies|..]);
    RunFromNext(cfg, files, i, ctx, Reports(files, i), out, prepare, step, c, s);
    ReportsNext(files, i);
    RunFromSources(cfg, files, i + 1, c, out0, s.out, prepare, step, kept);
  }

  /** A run that stops at file `i` reports once more and keeps the output it had. */
  lemma RunFromStops(cfg: Config, files: seq<string>, i: nat, ctx: Context, progress: seq<Progress>, out: Out,
                     prepare: string -> Result<Context>, step: (string, Context, Out) -> Copied,
                     kept: string -> seq<string>)
    requires i <= |files| && StepCopies(step, kept) && !GoesOn(cfg, files, i, ctx, out, prepare, step)
    ensures var r := RunFrom(cfg, files, i, ctx, progress, out, prepare, step);
            |r.progress| == |progress| + 1 && r.out == out
  {
    if i < |files| && !IsCancelled(cfg, i) && Prepared(files, i, ctx, prepare).Ok? {
      var s := step(files[i], Prepared(files, i, ctx, prepare).value, out);
      assert s.error.Some? ==> s.out == out;
    }
  }

  /**
   * In camera mode `"0"` the batch copies the kept images of the files it
   * finished, file by file and in order, and no other image.
   */
  lemma ProcessCopiesKept(folder: Folder, log: Option<seq<string>>, output: set<string>, cfg: Config)
    requires log.Some? && cfg.saveCam == "0"
    ensures var r := Process(folder, log, output, cfg);
            |r.progress| / 2 <= |MetadataFiles(folder)| &&
            Sources(r.out.copies) == KeptImages(folder, cfg.saveMode, MetadataFiles(folder), |r.progress| / 2)
  {
    var out0 := Out(output, []);
    var files := MetadataFiles(folder);
    var kept := name => KeptIn(folder, cfg.saveMode, name);
    FolderStepCopies(folder, cfg, ToolComments(log.value));
    RunFromSources(cfg, files, 0, Context(map[], []), out0, out0,
                   PrepareOf(folder, cfg), StepOf(folder, cfg, ToolComments(log.value)), kept);
    var r := Process(folder, log, output, cfg);
    var k :| 0 <= k && CopiedUpTo(r, out0, kept, files, k);
    OddHalf(k);
    assert |r.progress| / 2 == k;
    KeptByFolder(folder, cfg.saveMode, files, k);
    assert r.out.copies[0..] == r.out.copies;
  }

  lemma {:induction false} RunFromNoCopies(cfg: Config, files: seq<string>, i: nat, ctx: Context, progress: seq<Progress>,
                                           out: Out, prepare: string -> Result<Context>, step: (string, Context, Out) -> Copied)
    requires i <= |files| && forall name, c, o :: step(name, c, o).out == o
    ensures RunFrom(cfg, files, i, ctx, progress, out, prepare, step).out == out
    decreases |files| - i
  {
    if i < |files| && !IsCancelled(cfg, i) {
      match Prepared(files, i, ctx, prepare)
      case Err(_) =>
      case Ok(c) =>
        var started := progress + [Progress(i, |files|, Processing + files[i])];
        RunFromNoCopies(cfg, files, i + 1, c, started + [Progress(i + 1, |files|, Done + files[i])], out, prepare, step);
    }
  }

  /** Any camera mode other than `"0"` and `"1"` copies nothing. */
  lemma ProcessOtherModeCopiesNothing(folder: Folder, log: Option<seq<string>>, output: set<string>, cfg: Config)
    requires cfg.saveCam != "0" && cfg.saveCam != "1"
    ensures Process(folder, log, output, cfg).out == Out(output, [])
  {
    if log.Some? {
      var step := StepOf(folder, cfg, ToolComments(log.value));
      assert forall name, c, o :: step(name, c, o).out == o;
      RunFromNoCopies(cfg, MetadataFiles(folder), 0, Context(map[], []), [], Out(output, []), PrepareOf(folder, cfg), step);
    }
  }
  // ---------------------------------------------------------------------
  // What camera mode "1" copies

  /** The images of a file that `copy_select_files` copies under a context (none when it cannot be read). */
  function SelectedIn(folder: Folder, saveMode: string, ctx: Context, name: string): seq<string> {
    if name in folder.files then SelectedKept(ctx.ba, ctx.selected, Scan(folder.files[name], saveMode).files) else []
  }

  /** A readable file keeps an image whose raw coordinate the context does not map. */
  predicate UnmappedIn(folder: Folder, saveMode: string, ctx: Context, name: string) {
    name in folder.files && HasUnmapped(ctx.ba, Scan(folder.files[name], saveMode).files)
  }

  /** The images copied from the first `k` files in camera mode `"1"`, in file order. */
  function SelectedImages(folder: Folder, saveMode: string, ctx: Context, files: seq<string>, k: nat): seq<string>
    requires k <= |files|
  {
    if k == 0 then [] else SelectedImages(folder, saveMode, ctx, files, k - 1) + SelectedIn(folder, saveMode, ctx, files[k - 1])
  }

  /**
   * In camera mode `"1"` a file's copies are its selected images up to the
   * first unmapped one — also when it raises — and it raises `TypeError`
   * exactly when it keeps an unmapped image.
   */
  lemma FileStepSourcesSelect(folder: Folder, cfg: Config, tools: map<Coord, string>, name: string, ctx: Context, out: Out)
    requires cfg.saveCam == "1"
    ensures var s := FileStep(folder, cfg, tools, name, ctx, out);
            |out.copies| <= |s.out.copies| && s.out.copies[..|out.copies|] == out.copies &&
            Sources(s.out.copies[|out.copies|..]) == SelectedIn(folder, cfg.saveMode, ctx, name) &&
            (s.error == Some(TypeError) <==> UnmappedIn(folder, cfg.saveMode, ctx, name))
  {
    if name in folder.files {
      var env := Env(Scan(folder.files[name], cfg.saveMode), tools, ctx.ba, GeneratorOf(cfg.templates));
      var files := env.info.files;
      var planned := PlannedNames(env, files);
      var n := |files|;
      CopySelectFollows(env, ctx.selected, files, planned, n, out);
      CopySelectError(env, ctx.selected, files, planned, n, out);
      var c := CopySelect(env, ctx.selected, files, planned, n, out);
      FollowsSources(SelectPlan(env, ctx.selected, files, planned, FirstUnmapped(env, files, n)), c.out.copies[|out.copies|..]);
      SelectPlanKept(env, ctx.selected, files, planned, n);
      assert files[..n] == files;
      if HasUnmapped(ctx.ba, files) {
        var j :| 0 <= j < n && FindCamAndDiv(files[j]) !in ctx.ba;
        assert Unmapped(env, files[j]);
      }
    } else {
      assert out.copies[..|out.copies|] == out.copies;
      assert out.copies[|out.copies|..] == [];
    }
  }

  /**
   * Under one context, a per-file step adds after the output it is given
   * copies of the images `kept` names, and raises `TypeError` exactly on
   * the files `raises` names.
   */
  ghost predicate StepCopiesIn(step: (string, Context, Out) -> Copied, ctx: Context,
                               kept: string -> seq<string>, raises: string -> bool) {
    forall name, out ::
      var s := step(name, ctx, out);
      |out.copies| <= |s.out.copies| && s.out.copies[..|out.copies|] == out.copies &&
      Sources(s.out.copies[|out.copies|..]) == kept(name) &&
      (s.error == Some(TypeError) <==> raises(name))
  }

  lemma FolderStepCopiesIn(folder: Folder, cfg: Config, tools: map<Coord, string>, ctx: Context)
    requires cfg.saveCam == "1"
    ensures StepCopiesIn(StepOf(folder, cfg, tools), ctx,
                         name => SelectedIn(folder, cfg.saveMode, ctx, name), name => UnmappedIn(folder, cfg.saveMode, ctx, name))
  {
    forall name, out
      ensures var s := StepOf(folder, cfg, tools)(name, ctx, out);
              |out.copies| <= |s.out.copies| && s.out.copies[..|out.copies|] == out.copies &&
              Sources(s.out.copies[|out.copies|..]) == SelectedIn(folder, cfg.saveMode, ctx, name) &&
              (s.error == Some(TypeError) <==> UnmappedIn(folder, cfg.saveMode, ctx, name))
    {
      FileStepSourcesSelect(folder, cfg, tools, name, ctx, out);
    }
  }

  /**
   * A run that stopped at file `k`: the files before it raised nothing, the
   * run failed with `TypeError` exactly when file `k` was reached and
   * raised, and the copies after `out0` are those of the finished files
   * followed, when the run failed, by those of file `k`.
   */
  ghost predicate RanTo(cfg: Config, r: Run, out0: Out, kept: string -> seq<string>, raises: string -> bool,
                        files: seq<string>, k: nat) {
    k <= |files| && |r.progress| == 2 * k + 1 && (r.outcome.Failed? ==> k < |files|) &&
    (r.outcome == Failed(TypeError) <==> k < |files| && !IsCancelled(cfg, k) && raises(files[k])) &&
    (forall j :: 0 <= j < k ==> !raises(files[j])) &&
    |out0.copies| <= |r.out.copies| && r.out.copies[..|out0.copies|] == out0.copies &&
    Sources(r.out.copies[|out0.copies|..]) ==
      KeptBy(kept, files, k) + (if r.outcome.Failed? && k < |files| then kept(files[k]) else [])
  }

  /** Once the first file has prepared `ctx0`, every file runs under `ctx0`. */
  lemma PreparedFixed(files: seq<string>, i: nat, ctx: Context, ctx0: Context, prepare: string -> Result<Context>)
    requires i < |files| && prepare(files[0]) == Ok(ctx0) && (i > 0 ==> ctx == ctx0)
    ensures Prepared(files, i, ctx, prepare) == Ok(ctx0)
  {
  }

  lemma {:induction false} RunFromSelect(cfg: Config, files: seq<string>, i: nat, ctx: Context, ctx0: Context,
                                         out0: Out, out: Out, prepare: string -> Result<Context>,
                                         step: (string, Context, Out) -> Copied,
                                         kept: string -> seq<string>, raises: string -> bool)
    requires i <= |files| && 0 < |files| && prepare(files[0]) == Ok(ctx0) && (i > 0 ==> ctx == ctx0)
    requires StepCopiesIn(step, ctx0, kept, raises)
    requires |out0.copies| <= |out.copies| && out.copies[..|out0.copies|] == out0.copies
    requires Sources(out.copies[|out0.copies|..]) == KeptBy(kept, files, i)
    requires forall j :: 0 <= j < i ==> !raises(files[j])
    ensures exists k :: i <= k && RanTo(cfg, RunFrom(cfg, files, i, ctx, Reports(files, i), out, prepare, step),
                                         out0, kept, raises, files, k)
    decreases |files| - i, 1
  {
    if GoesOn(cfg, files, i, ctx, out, prepare, step) {
      RunFromSelectNext(cfg, files, i, ctx, ctx0, out0, out, prepare, step, kept, raises);
    } else {
      RunFromSelectStop(cfg, files, i, ctx, ctx0, out0, out, prepare, step, kept, raises);
    }
  }

  /** The step of `RunFromSelect` past a file that goes on. */
  lemma {:induction false} RunFromSelectNext(cfg: Config, files: seq<string>, i: nat, ctx: Context, ctx0: Context,
                                             out0: Out, out: Out, prepare: string -> Result<Context>,
                                             step: (string, Context, Out) -> Copied,
                                             kept: string -> seq<string>, raises: string -> bool)
    requires i <= |files| && 0 < |files| && prepare(files[0]) == Ok(ctx0) && (i > 0 ==> ctx == ctx0)
    requires StepCopiesIn(step, ctx0, kept, raises) && GoesOn(cfg, files, i, ctx, out, prepare, step)
    requires |out0.copies| <= |out.copies| && out.copies[..|out0.copies|] == out0.copies
    requires Sources(out.copies[|out0.copies|..]) == KeptBy(kept, files, i)
    requires forall j :: 0 <= j < i ==> !raises(files[j])
    ensures exists k :: i <= k && RanTo(cfg, RunFrom(cfg, files, i, ctx, Reports(files, i), out, prepare, step),
                                         out0, kept, raises, files, k)
    decreases |files| - i, 0
  {
    PreparedFixed(files, i, ctx, ctx0, prepare);
    var s := step(files[i], ctx0, out);
    assert |out.copies| <= |s.out.copies| && s.out.copies[..|out.copies|] == out.copies &&
           Sources(s.out.copies[|out.copies|..]) == kept(files[i]) &&
           (s.error == Some(TypeError) <==> raises(files[i]));
    NewCopiesAppend(out0.copies, out.copies, s.out.copies);
    SourcesAppend(out.copies[|out0.copies|..], s.out.copies[|out.copies|..]);
    RunFromNext(cfg, files, i, ctx, Reports(files, i), out, prepare, step, ctx0, s);
    ReportsNext(files, i);
    RunFromSelect(cfg, files, i + 1, ctx0, ctx0, out0, s.out, prepare, step, kept, raises);
  }

  /** A run that stops at file `i` has run to `i`. */
  lemma RunFromSelectStop(cfg: Config, files: seq<string>, i: nat, ctx: Context, ctx0: Context,
                          out0: Out, out: Out, prepare: string -> Result<Context>,
                          step: (string, Context, Out) -> Copied,
                          kept: string -> seq<string>, raises: string -> bool)
    requires i <= |files| && 0 < |files| && prepare(files[0]) == Ok(ctx0) && (i > 0 ==> ctx == ctx0)
    requires StepCopiesIn(step, ctx0, kept, raises) && !GoesOn(cfg, files, i, ctx, out, prepare, step)
    requires |out0.copies| <= |out.copies| && out.copies[..|out0.copies|] == out0.copies
    requires Sources(out.copies[|out0.copies|..]) == KeptBy(kept, files, i)
    requires forall j :: 0 <= j < i ==> !raises(files[j])
    ensures RanTo(cfg, RunFrom(cfg, files, i, ctx, Reports(files, i), out, prepare, step), out0, kept, raises, files, i)
  {
    var r := RunFrom(cfg, files, i, ctx, Reports(files, i), out, prepare, step);
    if i < |files| && !IsCancelled(cfg, i) {
      PreparedFixed(files, i, ctx, ctx0, prepare);
      var s := step(files[i], ctx0, out);
      assert |out.copies| <= |s.out.copies| && s.out.copies[..|out.copies|] == out.copies &&
             Sources(s.out.copies[|out.copies|..]) == kept(files[i]) &&
             (s.error == Some(TypeError) <==> raises(files[i]));
      assert r == Run(Failed(s.error.value), Reports(files, i) + [Progress(i, |files|, Processing + files[i])], s.out);
      NewCopiesAppend(out0.copies, out.copies, s.out.copies);
      SourcesAppend(out.copies[|out0.copies|..], s.out.copies[|out.copies|..]);
    } else {
      assert r.out == out && |r.progress| == 2 * i + 1 && !r.outcome.Failed?;
      assert KeptBy(kept, files, i) + [] == KeptBy(kept, files, i);
    }
  }

  lemma {:induction false} KeptBySelected(folder: Folder, saveMode: string, ctx: Context, files: seq<string>, k: nat)
    requires k <= |files|
    ensures KeptBy(name => SelectedIn(folder, saveMode, ctx, name), files, k) == SelectedImages(folder, saveMode, ctx, files, k)
  {
    if k > 0 {
      KeptBySelected(folder, saveMode, ctx, files, k - 1);
    }
  }

  /**
   * In camera mode `"1"`, once the first file has prepared the context
   * `ctx`, the batch finishes `k` files, and:
   * - none of them keeps an image whose raw coordinate `ctx` does not map;
   * - the run fails with `TypeError` exactly when it reaches file `k`
   *   (not cancelled) and that file keeps such an image;
   * - the copies are, file by file and in order, the kept images whose
   *   normalised coordinate `ctx` selects, and, when the run fails, the
   *   ones file `k` copied before its first unmapped image.
   */
  lemma ProcessCopiesSelected(folder: Folder, log: Option<seq<string>>, output: set<string>, cfg: Config)
    requires log.Some? && cfg.saveCam == "1"
    requires MetadataFiles(folder) != [] && Prepare(folder, cfg, MetadataFiles(folder)[0]).Ok?
    ensures var files := MetadataFiles(folder);
            var ctx := Prepare(folder, cfg, files[0]).value;
            var r := Process(folder, log, output, cfg);
            var k := |r.progress| / 2;
            k <= |files| && (r.outcome.Failed? ==> k < |files|) &&
            (forall j :: 0 <= j < k ==> !UnmappedIn(folder, cfg.saveMode, ctx, files[j])) &&
            (r.outcome == Failed(TypeError) <==> k < |files| && !IsCancelled(cfg, k) && UnmappedIn(folder, cfg.saveMode, ctx, files[k])) &&
            Sources(r.out.copies) ==
              SelectedImages(folder, cfg.saveMode, ctx, files, k) +
              (if r.outcome.Failed? && k < |files| then SelectedIn(folder, cfg.saveMode, ctx, files[k]) else [])
  {
    var out0 := Out(output, []);
    var files := MetadataFiles(folder);
    var ctx := Prepare(folder, cfg, files[0]).value;
    var kept := name => SelectedIn(folder, cfg.saveMode, ctx, name);
    var raises := name => UnmappedIn(folder, cfg.saveMode, ctx, name);
    var tools := ToolComments(log.value);
    FolderStepCopiesIn(folder, cfg, tools, ctx);
    assert out0.copies[..0] == out0.copies && out0.copies[0..] == [];
    RunFromSelect(cfg, files, 0, Context(map[], []), ctx, out0, out0, PrepareOf(folder, cfg), StepOf(folder, cfg, tools),
                  kept, raises);
    var r := Process(folder, log, output, cfg);
    var k :| 0 <= k && RanTo(cfg, r, out0, kept, raises, files, k);
    OddHalf(k);
    assert |r.progress| / 2 == k;
    KeptBySelected(folder, cfg.saveMode, ctx, files, k);
    assert r.out.copies[0..] == r.out.copies;
  }
}
