/**
 * `_process_image` and the steps it sequences: cleanup of the temporary files, export
 * of the drawable, the rembg run, the output check, the reinsertion of the cutout, the
 * optional squaring, and the final cleanup.
 *
 * The image and the file system are a class, Host, whose fields the steps update: the
 * log of host operations issued, the set of paths present on disk, and the canvas size.
 * Each step is specified by a function on a State snapshot; the lemmas at the end are
 * about those functions.
 */
module Pipeline {
  import opened Wrappers
  import opened Color
  import opened Canvas
  import opened Command
  import opened Selection
  import opened Trace

  /** The fixed names of the two hand-off files, reused by every run. */
  const JpgName := "Temp-gimp-0000.jpg"
  const PngName := "Temp-gimp-0000.png"

  /**
   * POSIX `os.path.join(dir, name)` for a relative `name`: the directory, a '/' unless
   * it is empty or already ends in one, then the name.
   */
  function PathJoin(dir: string, name: string): (p: string)
    ensures dir <= p && |p| >= |dir| + |name| && p[|p| - |name|..] == name
    ensures |p| <= |dir| + |name| + 1
    ensures dir != [] ==> p[|p| - |name| - 1] == '/'
  {
    if dir == [] || dir[|dir| - 1] == '/' then dir + name else dir + "/" + name
  }

  function JpgPath(tempDir: string): string { PathJoin(tempDir, JpgName) }

  function PngPath(tempDir: string): string { PathJoin(tempDir, PngName) }

  /** The two hand-off paths never coincide, whatever the temporary directory. */
  lemma TempPathsDiffer(tempDir: string)
    ensures JpgPath(tempDir) != PngPath(tempDir)
  {
    var prefix := if tempDir == [] || tempDir[|tempDir| - 1] == '/' then tempDir else tempDir + "/";
    assert JpgPath(tempDir) == prefix + JpgName && PngPath(tempDir) == prefix + PngName;
    assert (prefix + JpgName)[|prefix| + 15] == 'j';
    assert (prefix + PngName)[|prefix| + 15] == 'p';
  }

  /** What the plug-in can observe of GIMP and the disk. */
  datatype State = State(ops: seq<Op>, files: set<string>, width: nat, height: nat)

  /** The drawable: its id, its position among its siblings, and what `get_offsets` returned. */
  datatype Drawable = Drawable(id: LayerId, position: int, offsets: Offsets)

  /** The plug-in's arguments for one image. */
  datatype Request = Request(
    asMask: bool, selModel: nat, alphaMatting: bool, aeValue: int,
    bgMode: int, bgColor: Option<string>, makeSquare: bool, pythonExe: string)

  /** How the rembg process ends: its exit status, its decoded stderr, whether it wrote the PNG. */
  datatype ToolRun = ToolRun(exitCode: int, stderr: string, writesOutput: bool)

  /**
   * Everything else the run depends on: the temporary directory, HOME and the password
   * database, whether this GIMP build has an alpha mask type, the visibility of the
   * duplicate's layers, and the outcome of the rembg process.
   */
  datatype Environment = Environment(
    tempDir: string, home: string, users: map<string, string>,
    alphaMaskAvailable: bool, dupVisibility: seq<bool>, tool: ToolRun)

  /** `_cleanup(*paths)`: every non-empty path that exists is removed. */
  function CleanupStep(s: State, paths: seq<string>): (r: State)
    ensures r.ops == s.ops && r.width == s.width && r.height == s.height
    ensures r.files <= s.files
  {
    s.(files := s.files - (set p | p in paths && p != ""))
  }

  /** What `_export_drawable_as_jpg` issues: duplicate, show only the layer at `position`, flatten, save. */
  function ExportOps(position: int, dupVisibility: seq<bool>, jpg: string): seq<Op> {
    [Duplicate, MergeVisible(OneHot(|dupVisibility|, position)), SaveFile(jpg)]
  }

  /** `_export_drawable_as_jpg`, which also leaves the JPEG on disk. */
  function ExportStep(s: State, position: int, dupVisibility: seq<bool>, jpg: string): (r: State)
    ensures jpg in r.files && s.files <= r.files && r.files - {jpg} <= s.files
    ensures s.ops <= r.ops && |r.ops| == |s.ops| + 3
    ensures r.width == s.width && r.height == s.height
  {
    s.(ops := s.ops + ExportOps(position, dupVisibility, jpg), files := s.files + {jpg})
  }

  /**
   * `_run_rembg` after its interpreter is resolved: fail if it does not exist, otherwise
   * start the process, which may write the output, and fail on a non-zero exit status.
   */
  function RembgStep(s: State, exe: string, model: string, alphaMatting: bool, ae: int,
                     inPath: string, outPath: string, tool: ToolRun): (r: (State, Outcome<Error>))
    ensures r.1.Pass? <==> exe in s.files && tool.exitCode == 0
    ensures exe !in s.files ==> r.0 == s
    ensures outPath in r.0.files <==> outPath in s.files || (exe in s.files && tool.writesOutput)
    ensures s.ops <= r.0.ops && |r.0.ops| <= |s.ops| + 1
    ensures r.0.width == s.width && r.0.height == s.height
  {
    if exe !in s.files then (s, Fail(InterpreterNotFound(exe)))
    else
      var s' := s.(ops := s.ops + [Spawn(CommandLine(exe, model, alphaMatting, ae, inPath, outPath))],
                   files := if tool.writesOutput then s.files + {outPath} else s.files);
      if tool.exitCode != 0 then (s', Fail(RembgFailed(tool.stderr))) else (s', Pass)
  }

  /** `_insert_result_layer` on the current canvas. */
  function InsertStep(s: State, png: string, offX: int, offY: int, asMask: bool,
                      alphaMaskAvailable: bool, mode: int, custom: Rgba, orig: Option<LayerId>): (r: State)
    ensures r.files == s.files && r.width == s.width && r.height == s.height
    ensures s.ops <= r.ops && |r.ops| >= |s.ops| + 3
  {
    s.(ops := s.ops + InsertOps(png, offX, offY, asMask, alphaMaskAvailable, mode, custom, orig, s.width, s.height))
  }

  /** The "Make Square" block: resize the canvas to the centred square. */
  function SquareStep(s: State): (r: State)
    ensures r.width == r.height && r.width >= s.width && r.width >= s.height
    ensures r.files == s.files && s.ops <= r.ops && |r.ops| == |s.ops| + 1
  {
    var r := SquareResize(s.width, s.height);
    s.(ops := s.ops + [Op.Resize(r.side, r.side, r.offX, r.offY)], width := r.side, height := r.side)
  }

  /** `_process_image`; an error leaves the state as it was when the error was raised. */
  function Run(s: State, drawable: Option<Drawable>, req: Request, env: Environment): (r: (State, Outcome<Error>))
    requires req.selModel < |Models|
    ensures drawable.None? ==> r == (s, Pass)
    ensures r.1.Fail? ==> r.0.width == s.width && r.0.height == s.height
    ensures r.1.Pass? && drawable.Some? && req.makeSquare ==> r.0.width == r.0.height
  {
    if drawable.None? then (s, Pass)
    else
      var d := drawable.value;
      var offsets := NormalizeOffsets(d.offsets);
      var jpg, png := JpgPath(env.tempDir), PngPath(env.tempDir);
      var s1 := CleanupStep(s, [jpg, png]);
      var s2 := ExportStep(s1, d.position, env.dupVisibility, jpg);
      var exe := ResolveInterpreter(req.pythonExe, env.home, env.users);
      var (s3, o) := RembgStep(s2, exe, Models[req.selModel], req.alphaMatting, req.aeValue, jpg, png, env.tool);
      if o.Fail? then (s3, o)
      else if png !in s3.files then (s3, Fail(OutputNotCreated))
      else
        var s4 := InsertStep(s3, png, offsets.0, offsets.1, req.asMask, env.alphaMaskAvailable,
                             req.bgMode, ParseColorRgba(req.bgColor), Some(d.id));
        var s5 := if req.makeSquare then SquareStep(s4) else s4;
        (CleanupStep(s5, [jpg, png]), Pass)
  }

  /** The pieces `_insert_result_layer` issues, put together, make up InsertOps. */
  lemma InsertAssembled(before: seq<Op>, png: string, offX: int, offY: int, asMask: bool,
                        alphaMaskAvailable: bool, mode: int, custom: Rgba, orig: Option<LayerId>,
                        width: int, height: int)
    requires mode != BgTransparent
    ensures before + CutoutOps(png, offX, offY, asMask, alphaMaskAvailable, orig)
              + BackgroundOps(mode, custom, width, height) + [RaiseCutoutToTop, MergeDown]
         == before + InsertOps(png, offX, offY, asMask, alphaMaskAvailable, mode, custom, orig, width, height)
  {
  }

  /** The image GIMP hands the plug-in, together with the disk it reads and writes. */
  class Host {
    var ops: seq<Op>
    var files: set<string>
    var width: nat
    var height: nat

    function Snapshot(): State
      reads this
    {
      State(ops, files, width, height)
    }

    constructor (files0: set<string>, width0: nat, height0: nat)
      ensures Snapshot() == State([], files0, width0, height0)
    {
      ops, files, width, height := [], files0, width0, height0;
    }

    /** `_cleanup`: a loop over the paths, removing each one that exists. */
    method Cleanup(paths: seq<string>)
      modifies this
      ensures Snapshot() == CleanupStep(old(Snapshot()), paths)
    {
      for i := 0 to |paths|
        invariant ops == old(ops) && width == old(width) && height == old(height)
        invariant files == old(files) - (set p | p in paths[..i] && p != "")
      {
        var p := paths[i];
        assert paths[..i + 1] == paths[..i] + [p];
        if p != "" && p in files {
          files := files - {p};
        }
      }
      assert paths[..|paths|] == paths;
    }

    /** `_export_drawable_as_jpg` on a duplicate whose layers have visibility `dupVisibility`. */
    method ExportDrawableAsJpg(position: int, dupVisibility: seq<bool>, jpgPath: string)
      modifies this
      ensures Snapshot() == ExportStep(old(Snapshot()), position, dupVisibility, jpgPath)
    {
      ops := ops + [Duplicate];
      var layers := new bool[|dupVisibility|](i requires 0 <= i < |dupVisibility| => dupVisibility[i]);
      IsolateVisibility(layers, position);
      ops := ops + [MergeVisible(layers[..])];
      ops := ops + [SaveFile(jpgPath)];
      files := files + {jpgPath};
    }

    /** `_run_rembg`, with the process outcome given by `tool`. */
    method RunRembg(pythonExe: string, model: string, alphaMatting: bool, ae: int,
                    inPath: string, outPath: string, home: string, users: map<string, string>,
                    tool: ToolRun) returns (outcome: Outcome<Error>)
      modifies this
      ensures (Snapshot(), outcome)
           == RembgStep(old(Snapshot()), ResolveInterpreter(pythonExe, home, users), model,
                        alphaMatting, ae, inPath, outPath, tool)
    {
      var exe := ResolveInterpreter(pythonExe, home, users);
      if exe !in files {
        return Fail(InterpreterNotFound(exe));
      }
      var cmd := BuildCommand(exe, model, alphaMatting, ae, inPath, outPath);
      ops := ops + [Spawn(cmd)];
      if tool.writesOutput {
        files := files + {outPath};
      }
      if tool.exitCode != 0 {
        outcome := Fail(RembgFailed(tool.stderr));
      } else {
        outcome := Pass;
      }
    }

    /** `_new_bg_layer`: returns whether a background layer was created. */
    method NewBgLayer(mode: int, colorStr: Option<string>) returns (created: bool)
      modifies this
      ensures created == (mode != BgTransparent)
      ensures Snapshot() == old(Snapshot()).(ops := old(ops) + BackgroundOps(mode, ParseColorRgba(colorStr), width, height))
    {
      if mode == BgTransparent {
        return false;
      }
      ops := ops + [NewLayer(width, height, mode == BgCustom), InsertBackground];
      if mode == BgWhite {
        ops := ops + [Fill(WhiteFill)];
      } else if mode == BgBlack {
        ops := ops + [Fill(BlackFill)];
      } else if mode == BgCustom {
        var color := ParseColorRgba(colorStr);
        ops := ops + [PaintSolid(color)];
      }
      created := true;
    }

    /** `_insert_result_layer` */
    method InsertResultLayer(png: string, offX: int, offY: int, asMask: bool, alphaMaskAvailable: bool,
                             mode: int, colorStr: Option<string>, orig: Option<LayerId>)
      modifies this
      ensures Snapshot() == InsertStep(old(Snapshot()), png, offX, offY, asMask, alphaMaskAvailable,
                                       mode, ParseColorRgba(colorStr), orig)
    {
      ghost var before := ops;
      ops := ops + [LoadLayer(png), InsertCutout, SetOffsets(offX, offY)];
      if asMask {
        ops := ops + [AddMask(if alphaMaskAvailable then FromAlpha else AllWhite)];
      }
      if orig.Some? {
        ops := ops + [RemoveLayer(orig.value)];
      }
      assert ops == before + CutoutOps(png, offX, offY, asMask, alphaMaskAvailable, orig);
      if mode == BgTransparent {
        return;
      }
      var _ := NewBgLayer(mode, colorStr);
      ops := ops + [RaiseCutoutToTop, MergeDown];
      InsertAssembled(before, png, offX, offY, asMask, alphaMaskAvailable, mode, ParseColorRgba(colorStr),
                      orig, width, height);
    }

    /** The "Make Square" block of `_process_image`. */
    method MakeSquare()
      modifies this
      ensures Snapshot() == SquareStep(old(Snapshot()))
    {
      var r := SquareResize(width, height);
      ops := ops + [Op.Resize(r.side, r.side, r.offX, r.offY)];
      width, height := r.side, r.side;
    }

    /** `_process_image` */
    method ProcessImage(drawable: Option<Drawable>, req: Request, env: Environment) returns (outcome: Outcome<Error>)
      requires req.selModel < |Models|
      modifies this
      ensures (Snapshot(), outcome) == Run(old(Snapshot()), drawable, req, env)
    {
      if drawable.None? {
        return Pass;
      }
      var d := drawable.value;
      var offsets := NormalizeOffsets(d.offsets);
      var jpg, png := JpgPath(env.tempDir), PngPath(env.tempDir);
      Cleanup([jpg, png]);
      ExportDrawableAsJpg(d.position, env.dupVisibility, jpg);
      outcome := RunRembg(req.pythonExe, Models[req.selModel], req.alphaMatting, req.aeValue,
                          jpg, png, env.home, env.users, env.tool);
      if outcome.Fail? {
        return;
      }
      if png !in files {
        return Fail(OutputNotCreated);
      }
      InsertResultLayer(png, offsets.0, offsets.1, req.asMask, env.alphaMaskAvailable,
                        req.bgMode, req.bgColor, Some(d.id));
      if req.makeSquare {
        MakeSquare();
      }
      Cleanup([jpg, png]);
    }
  }

  /** The interpreter `_run_rembg` looks for. */
  function Interpreter(req: Request, env: Environment): string {
    ResolveInterpreter(req.pythonExe, env.home, env.users)
  }

  /** The command the run starts for `req`. */
  function RembgCommand(req: Request, env: Environment): seq<string>
    requires req.selModel < |Models|
  {
    CommandLine(Interpreter(req, env), Models[req.selModel], req.alphaMatting, req.aeValue,
                JpgPath(env.tempDir), PngPath(env.tempDir))
  }

  /**
   * Whether the interpreter exists by the time `_run_rembg` checks: on the disk of `s`
   * once both hand-off files are removed and the JPEG is written.
   */
  predicate InterpreterFound(s: State, req: Request, env: Environment) {
    var exe := Interpreter(req, env);
    exe == JpgPath(env.tempDir) || (exe in s.files && exe != PngPath(env.tempDir))
  }

  /** With no layer to work on, the image is skipped: no operation, no file touched. */
  lemma NoDrawableNoEffect(s: State, req: Request, env: Environment)
    requires req.selModel < |Models|
    ensures Run(s, None, req, env) == (s, Pass)
  {
  }

  /** A missing interpreter is reported after the export and before any process is started. */
  lemma MissingInterpreter(s: State, d: Drawable, req: Request, env: Environment)
    requires req.selModel < |Models|
    requires !InterpreterFound(s, req, env)
    ensures var (r, o) := Run(s, Some(d), req, env);
      var jpg, png := JpgPath(env.tempDir), PngPath(env.tempDir);
      && o == Fail(InterpreterNotFound(Interpreter(req, env)))
      && r.ops == s.ops + ExportOps(d.position, env.dupVisibility, jpg)
      && r.files == s.files - {png} + {jpg}
      && (r.width, r.height) == (s.width, s.height)
  {
    var jpg, png := JpgPath(env.tempDir), PngPath(env.tempDir);
    TempPathsDiffer(env.tempDir);
    CleanupOfPair(s, jpg, png);
    var s2 := ExportStep(CleanupStep(s, [jpg, png]), d.position, env.dupVisibility, jpg);
    assert s2.files == s.files - {jpg, png} + {jpg};
    assert Interpreter(req, env) !in s2.files;
    assert Run(s, Some(d), req, env) == (s2, Fail(InterpreterNotFound(Interpreter(req, env))));
    assert s.files - {jpg, png} + {jpg} == s.files - {png} + {jpg};
  }

  /**
   * A non-zero exit of rembg is reported with its stderr, or "rembg failed" when that is
   * empty, after exactly the one process; the JPEG stays on disk, and the PNG is there
   * exactly when rembg wrote it.
   */
  lemma RembgFailure(s: State, d: Drawable, req: Request, env: Environment)
    requires req.selModel < |Models|
    requires InterpreterFound(s, req, env) && env.tool.exitCode != 0
    ensures var (r, o) := Run(s, Some(d), req, env);
      var jpg, png := JpgPath(env.tempDir), PngPath(env.tempDir);
      && o == Fail(RembgFailed(env.tool.stderr))
      && Message(o.error) == (if env.tool.stderr == "" then "rembg failed" else env.tool.stderr)
      && r.ops == s.ops + ExportOps(d.position, env.dupVisibility, jpg) + [Spawn(RembgCommand(req, env))]
      && jpg in r.files
      && (png in r.files <==> env.tool.writesOutput)
  {
    RembgStage(s, d, req, env);
  }

  /** rembg exiting normally without writing the PNG is an error; nothing is loaded. */
  lemma MissingOutput(s: State, d: Drawable, req: Request, env: Environment)
    requires req.selModel < |Models|
    requires InterpreterFound(s, req, env) && env.tool.exitCode == 0 && !env.tool.writesOutput
    ensures var (r, o) := Run(s, Some(d), req, env);
      var jpg := JpgPath(env.tempDir);
      && o == Fail(OutputNotCreated)
      && r.ops == s.ops + ExportOps(d.position, env.dupVisibility, jpg) + [Spawn(RembgCommand(req, env))]
      && jpg in r.files
      && PngPath(env.tempDir) !in r.files
  {
    RembgStage(s, d, req, env);
  }

  /**
   * The state and outcome once the hand-off files are cleared, the JPEG is exported and
   * rembg has run with its interpreter present.
   */
  lemma RembgStage(s: State, d: Drawable, req: Request, env: Environment)
    requires req.selModel < |Models|
    requires InterpreterFound(s, req, env)
    ensures var jpg, png := JpgPath(env.tempDir), PngPath(env.tempDir);
      var exported := s.files - {jpg, png} + {jpg};
      var s3 := State(s.ops + ExportOps(d.position, env.dupVisibility, jpg) + [Spawn(RembgCommand(req, env))],
                      if env.tool.writesOutput then exported + {png} else exported, s.width, s.height);
      && jpg in s3.files && (png in s3.files <==> env.tool.writesOutput)
      && (env.tool.exitCode != 0 ==> Run(s, Some(d), req, env) == (s3, Fail(RembgFailed(env.tool.stderr))))
      && (env.tool.exitCode == 0 && !env.tool.writesOutput ==> Run(s, Some(d), req, env) == (s3, Fail(OutputNotCreated)))
  {
    var jpg, png := JpgPath(env.tempDir), PngPath(env.tempDir);
    TempPathsDiffer(env.tempDir);
    CleanupOfPair(s, jpg, png);
    var s2 := ExportStep(CleanupStep(s, [jpg, png]), d.position, env.dupVisibility, jpg);
    assert s2.files == s.files - {jpg, png} + {jpg};
    assert Interpreter(req, env) in s2.files;
  }

  /**
   * A successful run issues, in order, the export, the one rembg process, the reinsertion
   * of the result on the drawable's offsets in place of the drawable, and the squaring
   * when asked; it then removes both hand-off files and nothing else.
   */
  lemma SuccessfulRun(s: State, d: Drawable, req: Request, env: Environment)
    requires req.selModel < |Models|
    requires InterpreterFound(s, req, env) && env.tool.exitCode == 0 && env.tool.writesOutput
    ensures var (r, o) := Run(s, Some(d), req, env);
      var jpg, png := JpgPath(env.tempDir), PngPath(env.tempDir);
      var offsets := NormalizeOffsets(d.offsets);
      var square := SquareResize(s.width, s.height);
      && o == Pass
      && r.ops == s.ops + ExportOps(d.position, env.dupVisibility, jpg) + [Spawn(RembgCommand(req, env))]
                  + InsertOps(png, offsets.0, offsets.1, req.asMask, env.alphaMaskAvailable, req.bgMode,
                              ParseColorRgba(req.bgColor), Some(d.id), s.width, s.height)
                  + (if req.makeSquare then [Op.Resize(square.side, square.side, square.offX, square.offY)] else [])
      && r.files == s.files - {jpg, png}
      && (r.width, r.height) == (if req.makeSquare then (square.side, square.side) else (s.width, s.height))
  {
    var jpg, png := JpgPath(env.tempDir), PngPath(env.tempDir);
    TempPathsDiffer(env.tempDir);
    var s1 := CleanupStep(s, [jpg, png]);
    CleanupOfPair(s, jpg, png);
    var s2 := ExportStep(s1, d.position, env.dupVisibility, jpg);
    var cmd := Spawn(RembgCommand(req, env));
    var s3 := s2.(ops := s2.ops + [cmd], files := s2.files + {png});
    assert RembgStep(s2, Interpreter(req, env), Models[req.selModel], req.alphaMatting, req.aeValue, jpg, png, env.tool)
        == (s3, Pass);
    var offsets := NormalizeOffsets(d.offsets);
    var s4 := InsertStep(s3, png, offsets.0, offsets.1, req.asMask, env.alphaMaskAvailable,
                         req.bgMode, ParseColorRgba(req.bgColor), Some(d.id));
    var s5 := if req.makeSquare then SquareStep(s4) else s4;
    assert Run(s, Some(d), req, env) == (CleanupStep(s5, [jpg, png]), Pass);
    CleanupOfPair(s5, jpg, png);
    var square := SquareResize(s.width, s.height);
    var ins := InsertOps(png, offsets.0, offsets.1, req.asMask, env.alphaMaskAvailable, req.bgMode,
                         ParseColorRgba(req.bgColor), Some(d.id), s.width, s.height);
    var resize: seq<Op> := if req.makeSquare then [Op.Resize(square.side, square.side, square.offX, square.offY)] else [];
    assert s3.ops == s.ops + ExportOps(d.position, env.dupVisibility, jpg) + [cmd];
    assert (s3.width, s3.height) == (s.width, s.height);
    assert s4.ops == s3.ops + ins && (s4.width, s4.height) == (s.width, s.height);
    SquareTail(s4, req.makeSquare);
    assert s5.files == s3.files == s.files - {jpg, png} + {jpg} + {png};
    HandoffFilesRemoved(s.files, jpg, png);
  }

  /** The optional "Make Square" block appends at most the one resize. */
  lemma SquareTail(s: State, makeSquare: bool)
    ensures var square := SquareResize(s.width, s.height);
      && (if makeSquare then SquareStep(s) else s).ops
         == s.ops + (if makeSquare then [Op.Resize(square.side, square.side, square.offX, square.offY)] else [])
      && (if makeSquare then SquareStep(s) else s).files == s.files
  {
  }

  lemma HandoffFilesRemoved(files: set<string>, jpg: string, png: string)
    ensures files - {jpg, png} + {jpg} + {png} - {jpg, png} == files - {jpg, png}
  {
  }

  /** Both hand-off paths are non-empty, so `_cleanup` removes exactly the two of them. */
  lemma CleanupOfPair(s: State, a: string, b: string)
    requires a != "" && b != ""
    ensures CleanupStep(s, [a, b]) == s.(files := s.files - {a, b})
  {
    assert (set p | p in [a, b] && p != "") == {a, b};
  }

  /** The run succeeds exactly when there is nothing to do or every stage succeeds. */
  lemma OutcomeExactly(s: State, drawable: Option<Drawable>, req: Request, env: Environment)
    requires req.selModel < |Models|
    ensures Run(s, drawable, req, env).1 == Pass
        <==> drawable.None? || (InterpreterFound(s, req, env) && env.tool.exitCode == 0 && env.tool.writesOutput)
  {
    if drawable.Some? {
      var d := drawable.value;
      if !InterpreterFound(s, req, env) {
        MissingInterpreter(s, d, req, env);
      } else if env.tool.exitCode != 0 {
        RembgFailure(s, d, req, env);
      } else if !env.tool.writesOutput {
        MissingOutput(s, d, req, env);
      } else {
        SuccessfulRun(s, d, req, env);
      }
    }
  }

  /**
   * The hand-off JPEG outlives every failure once a drawable was exported, and a
   * successful run leaves neither hand-off file behind.
   */
  lemma TempFilesAfterRun(s: State, d: Drawable, req: Request, env: Environment)
    requires req.selModel < |Models|
    ensures var (r, o) := Run(s, Some(d), req, env);
      && (o.Fail? ==> JpgPath(env.tempDir) in r.files)
      && (o.Pass? ==> JpgPath(env.tempDir) !in r.files && PngPath(env.tempDir) !in r.files)
  {
    if !InterpreterFound(s, req, env) {
      MissingInterpreter(s, d, req, env);
    } else if env.tool.exitCode != 0 {
      RembgFailure(s, d, req, env);
    } else if !env.tool.writesOutput {
      MissingOutput(s, d, req, env);
    } else {
      SuccessfulRun(s, d, req, env);
    }
  }

  /**
   * Operations are only ever appended, and each image starts at most one process: the
   * rembg command, exactly when there is a drawable and the interpreter exists.
   */
  lemma OneProcessPerImage(s: State, drawable: Option<Drawable>, req: Request, env: Environment)
    requires req.selModel < |Models|
    ensures var (r, o) := Run(s, drawable, req, env);
      var cmd := Spawn(RembgCommand(req, env));
      && |s.ops| <= |r.ops| && r.ops[..|s.ops|] == s.ops
      && (forall op :: op in r.ops[|s.ops|..] && op.Spawn? ==> op == cmd)
      && Occurrences(r.ops[|s.ops|..], cmd) == if drawable.Some? && InterpreterFound(s, req, env) then 1 else 0
  {
    var r := Run(s, drawable, req, env).0;
    var cmd := Spawn(RembgCommand(req, env));
    if drawable.None? {
      assert r.ops[|s.ops|..] == [];
      return;
    }
    var d := drawable.value;
    var exported := ExportOps(d.position, env.dupVisibility, JpgPath(env.tempDir));
    if !InterpreterFound(s, req, env) {
      MissingInterpreter(s, d, req, env);
      SpawnsIn(s.ops, d.position, env.dupVisibility, JpgPath(env.tempDir), [], [], [], cmd);
      assert s.ops + exported + [] + [] + [] == r.ops;
    } else if env.tool.exitCode != 0 {
      RembgFailure(s, d, req, env);
      SpawnsIn(s.ops, d.position, env.dupVisibility, JpgPath(env.tempDir), [cmd], [], [], cmd);
      assert s.ops + exported + [cmd] + [] + [] == r.ops;
    } else if !env.tool.writesOutput {
      MissingOutput(s, d, req, env);
      SpawnsIn(s.ops, d.position, env.dupVisibility, JpgPath(env.tempDir), [cmd], [], [], cmd);
      assert s.ops + exported + [cmd] + [] + [] == r.ops;
    } else {
      SuccessSpawns(s, d, req, env);
    }
  }

  /** OneProcessPerImage for a run that succeeds. */
  lemma SuccessSpawns(s: State, d: Drawable, req: Request, env: Environment)
    requires req.selModel < |Models|
    requires InterpreterFound(s, req, env) && env.tool.exitCode == 0 && env.tool.writesOutput
    ensures var r := Run(s, Some(d), req, env).0;
      var cmd := Spawn(RembgCommand(req, env));
      && |s.ops| <= |r.ops| && r.ops[..|s.ops|] == s.ops
      && (forall op :: op in r.ops[|s.ops|..] && op.Spawn? ==> op == cmd)
      && Occurrences(r.ops[|s.ops|..], cmd) == 1
  {
    SuccessfulRun(s, d, req, env);
    var offsets := NormalizeOffsets(d.offsets);
    var square := SquareResize(s.width, s.height);
    var custom := ParseColorRgba(req.bgColor);
    var insert := InsertOps(PngPath(env.tempDir), offsets.0, offsets.1, req.asMask, env.alphaMaskAvailable,
                            req.bgMode, custom, Some(d.id), s.width, s.height);
    var resize: seq<Op> := if req.makeSquare then [Op.Resize(square.side, square.side, square.offX, square.offY)] else [];
    InsertStaysInImage(PngPath(env.tempDir), offsets.0, offsets.1, req.asMask, env.alphaMaskAvailable,
                       req.bgMode, custom, Some(d.id), s.width, s.height);
    SpawnsIn(s.ops, d.position, env.dupVisibility, JpgPath(env.tempDir), [Spawn(RembgCommand(req, env))],
             insert, resize, Spawn(RembgCommand(req, env)));
  }

  /** Counting the one process in a log laid out as prefix, export, start, insertion and resize. */
  lemma SpawnsIn(prefix: seq<Op>, position: int, dupVisibility: seq<bool>, jpg: string, started: seq<Op>,
                 insert: seq<Op>, resize: seq<Op>, cmd: Op)
    requires forall op :: op in insert ==> !op.Spawn?
    requires forall op :: op in resize ==> !op.Spawn?
    requires cmd.Spawn? && (started == [] || started == [cmd])
    ensures var t := prefix + ExportOps(position, dupVisibility, jpg) + started + insert + resize;
      && |prefix| <= |t| && t[..|prefix|] == prefix
      && (forall op :: op in t[|prefix|..] && op.Spawn? ==> op == cmd)
      && Occurrences(t[|prefix|..], cmd) == |started|
  {
    var exported := ExportOps(position, dupVisibility, jpg);
    var t := prefix + exported + started + insert + resize;
    var rest := insert + resize;
    assert t[..|prefix|] == prefix;
    assert t[|prefix|..] == exported + started + rest;
    assert forall op :: op in rest ==> !op.Spawn?;
    assert cmd !in exported && cmd !in rest;
    OccurrencesAbsent(exported, cmd);
    OccurrencesAbsent(rest, cmd);
    OccurrencesAppend(exported, started, cmd);
    OccurrencesAppend(exported + started, rest, cmd);
    if started != [] {
      OccurrencesSingle(cmd, cmd);
    } else {
      OccurrencesAbsent(started, cmd);
    }
  }

  /**
   * A successful run replaces the drawable: its layer is removed exactly once, and the
   * cutout is merged onto a background exactly once unless the mode is Transparent, in
   * which case nothing is merged.
   */
  lemma SuccessReplacesDrawable(s: State, d: Drawable, req: Request, env: Environment)
    requires req.selModel < |Models|
    requires InterpreterFound(s, req, env) && env.tool.exitCode == 0 && env.tool.writesOutput
    ensures var r := Run(s, Some(d), req, env).0;
      |s.ops| <= |r.ops|
      && Occurrences(r.ops[|s.ops|..], RemoveLayer(d.id)) == 1
      && Occurrences(r.ops[|s.ops|..], MergeDown) == if req.bgMode == BgTransparent then 0 else 1
  {
    SuccessfulRun(s, d, req, env);
    var offsets := NormalizeOffsets(d.offsets);
    ReplacementCounts(s.ops, d.position, env.dupVisibility, JpgPath(env.tempDir), Spawn(RembgCommand(req, env)),
                      PngPath(env.tempDir), offsets.0, offsets.1, req.asMask, env.alphaMaskAvailable,
                      req.bgMode, ParseColorRgba(req.bgColor), d.id, s.width, s.height, req.makeSquare);
  }

  /** SuccessReplacesDrawable for any colour and any log before the run. */
  lemma ReplacementCounts(prefix: seq<Op>, position: int, dupVisibility: seq<bool>, jpg: string, started: Op,
                          png: string, offX: int, offY: int, asMask: bool, alphaMaskAvailable: bool, mode: int,
                          custom: Rgba, id: LayerId, width: nat, height: nat, makeSquare: bool)
    requires started.Spawn?
    ensures var square := SquareResize(width, height);
      var t := prefix + ExportOps(position, dupVisibility, jpg) + [started]
               + InsertOps(png, offX, offY, asMask, alphaMaskAvailable, mode, custom, Some(id), width, height)
               + (if makeSquare then [Op.Resize(square.side, square.side, square.offX, square.offY)] else []);
      |prefix| <= |t|
      && Occurrences(t[|prefix|..], RemoveLayer(id)) == 1
      && Occurrences(t[|prefix|..], MergeDown) == if mode == BgTransparent then 0 else 1
  {
    var square := SquareResize(width, height);
    var insert := InsertOps(png, offX, offY, asMask, alphaMaskAvailable, mode, custom, Some(id), width, height);
    var after: seq<Op> := if makeSquare then [Op.Resize(square.side, square.side, square.offX, square.offY)] else [];
    var exported := ExportOps(position, dupVisibility, jpg);
    var before := exported + [started];
    assert prefix + exported + [started] + insert + after == prefix + before + insert + after;
    assert RemoveLayer(id) !in before && MergeDown !in before;
    assert RemoveLayer(id) !in after && MergeDown !in after;
    CountInLog(prefix, before, insert, after, RemoveLayer(id));
    CountInLog(prefix, before, insert, after, MergeDown);
    OriginalRemoved(png, offX, offY, asMask, alphaMaskAvailable, mode, custom, Some(id), width, height, id);
    OccurrencesAbsent(insert, RemoveLayer(id));
    if mode == BgTransparent {
      TransparentKeepsCutout(png, offX, offY, asMask, alphaMaskAvailable, custom, Some(id), width, height);
      OccurrencesAbsent(insert, MergeDown);
    } else {
      BackgroundMergedOnce(png, offX, offY, asMask, alphaMaskAvailable, mode, custom, Some(id), width, height);
    }
  }

  /** Counting an operation that only the middle part of a log can contain. */
  lemma CountInLog(prefix: seq<Op>, before: seq<Op>, middle: seq<Op>, after: seq<Op>, x: Op)
    requires x !in before && x !in after
    ensures var t := prefix + before + middle + after;
      |prefix| <= |t| && Occurrences(t[|prefix|..], x) == Occurrences(middle, x)
  {
    var t := prefix + before + middle + after;
    assert t[|prefix|..] == before + middle + after;
    OccurrencesAbsent(before, x);
    OccurrencesAbsent(after, x);
    OccurrencesAppend(before, middle, x);
    OccurrencesAppend(before + middle, after, x);
  }
}
