# AI Remove Background (GIMP 3 plug-in) — a verified Dafny model

`ai-remove-background-g3.py` is a GIMP 3 plug-in. It cuts the background out of an
image with the external `rembg` tool. The plug-in:

1. exports the chosen layer alone to a temporary JPEG;
2. runs `python -m rembg.cli i …` on it;
3. loads the PNG that rembg writes back into the image, at the original layer's offsets
   and in place of that layer;
4. optionally puts a white, black or custom-coloured background under the result and
   merges the two;
5. optionally grows the canvas to a centred square.

This project models the deterministic logic of that pipeline and proves what it does.
The modules are:

- `Color`: `_parse_color_rgba`, the hex colour parser.
  - It strips whitespace, then every leading `#`.
  - Six digits give an opaque colour; eight digits also give the alpha.
  - Anything else gives opaque white.
  - Channels are the exact reals `n/255`.
- `Canvas`: the "Make Square" arithmetic, `max(w, h)`, with floor-halved offsets.
- `Command`: the rembg side of `_run_rembg`.
  - It resolves the interpreter: `python3` when none is given, and `os.path.expanduser`
    on a leading `~`.
  - It builds the argument list, including Python's `str(int(n))` for the erode size.
  - It defines the three errors and their messages.
  - The list is built twice: as a function, and as a method doing the same appends, in
    the same order, as the source. A parser for the list proves the round trip.
- `Selection`:
  - `_get_drawable_for_image`;
  - the offset normalisation of `_process_image`;
  - the visibility loop of `_export_drawable_as_jpg`, as a method over an `array<bool>`.
- `Trace`: what `_insert_result_layer` and `_new_bg_layer` ask GIMP to do, as a log of
  host operations (`Op`). GIMP's own layer-stack semantics are not visible, so the
  properties are stated on the log, plus a count of layers added and removed.
- `Pipeline`: `_process_image` and `_cleanup`.
  - `Host` is a class holding the operation log, the set of paths on disk and the canvas
    size.
  - Each of its methods is proved to move the host from one state to the next exactly as
    a step function says.
  - `Run` composes the steps in the source's order: cleanup, export, rembg, output check,
    insertion, optional squaring, cleanup.
  - The lemmas about `Run` cover every way the pipeline can end.

Outside inputs:

- Whether a path exists is membership in the modelled set of files.
- The rembg process is an input (`ToolRun`): its exit status, its decoded stderr, and
  whether it wrote the PNG.
- HOME and the password database (for `~user`) are inputs.
- The results of `get_offsets`, the selected layers, the duplicate's layer list, and
  whether the GIMP build exposes an alpha mask type are inputs.

Three consequences of the code that a caller might not expect:

- **Colour fallback.** A malformed custom colour falls back to opaque white
  (lines 91-95). The registered default `#00000000` (line 302) is transparent black.
- **Temporary files.** The final `_cleanup` (line 247) is not in a `finally`, so a
  failure after the export leaves the JPEG (and possibly the PNG) on disk:
  `Pipeline.TempFilesAfterRun`.
- **Layer count.** When the original layer is removed, inserting the result leaves the
  layer count unchanged in every mode: `Trace.NetLayerChange`.

## Model

| member | source | states |
|---|---|---|
| Color.ParseColorRgba | ai-remove-background-g3.py:74-95 | Every channel of the parsed colour lies in 0..1 |
| Color.ParseColorRgbaAsWritten | ai-remove-background-g3.py:74-95 | The parser with Python's lenient `int(pair, 16)`: channels lie between -15/255 and 1, and a stripped input of a length other than 6 or 8 gives opaque white |
| Color.DecodeStripped | ai-remove-background-g3.py:81-95 | The length dispatch: any length other than 6 or 8 gives opaque white; with the strict reader every channel lies in 0..1, with the lenient one in -15/255..1 |
| Color.Normalized | ai-remove-background-g3.py:79 | `(color_str or "").strip().lstrip("#")` never begins with a '#' |
| Color.ParseHexDigits | ai-remove-background-g3.py:79-90 | Whitespace and leading '#'s around six or eight hex digits are ignored; the channels are the pairs over 255, in order, with alpha 1 for six digits and the fourth pair for eight |
| Color.WhiteExactlyWhenMalformed | ai-remove-background-g3.py:79-95 | The result is opaque white exactly when the stripped input is not six or eight hex digits (None, empty, wrong length, a non-hex character) or all its digits are f |
| Color.DecodeWhite | ai-remove-background-g3.py:81-95 | The 6/8 length dispatch alone returns white exactly for malformed or all-f input |
| Color.DecodeDigits | ai-remove-background-g3.py:81-90 | On well-formed digits each channel is its pair's byte value over 255 |
| Color.NormalizedOf | ai-remove-background-g3.py:79 | `strip().lstrip("#")` of padded input with any number of leading '#'s returns the core |
| Color.StripLeadingSpec | ai-remove-background-g3.py:79 | `lstrip` removes exactly a leading run of Python whitespace |
| Color.StripTrailingSpec | ai-remove-background-g3.py:79 | `rstrip` removes exactly a trailing run of Python whitespace |
| Color.StripHashesSpec | ai-remove-background-g3.py:79 | `lstrip("#")` removes exactly the leading '#'s |
| Color.StripLeadingOf | ai-remove-background-g3.py:79 | Leading whitespace before a non-space character is removed and nothing else |
| Color.StripTrailingOf | ai-remove-background-g3.py:79 | Trailing whitespace after a non-space character is removed and nothing else |
| Color.StripHashesOf | ai-remove-background-g3.py:79 | Any number of leading '#'s before a non-'#' character is removed and nothing else |
| Color.HexPair | ai-remove-background-g3.py:82-90 | A pair is read exactly when both characters are hex digits, and its value is a byte |
| Color.PyHexPair | ai-remove-background-g3.py:82-90 | Python's lenient `int(pair, 16)`, which trims only the whitespace `int()` trims, agrees with the strict reader on hex digits and yields at least -15 |
| Color.HexValue | ai-remove-background-g3.py:82-90 | A hex digit's value is below 16, for either letter case |
| Color.PairValue | ai-remove-background-g3.py:82-90 | A pair of hex digits has a byte value |
| Color.UnitIsOne | ai-remove-background-g3.py:82 | A channel is 1.0 exactly for byte 255 |
| Color.PairIsFF | ai-remove-background-g3.py:82 | A pair's value is 255 exactly when both digits are f |
| Color.StrictAgreesWithAsWritten | ai-remove-background-g3.py:79-95 | On six or eight hex digits and on wrong lengths, the strict and the as-written parsers agree |
| Color.DecodeAgrees | ai-remove-background-g3.py:81-95 | The same agreement on the stripped string |
| Color.SignedPairLeavesUnitRange | ai-remove-background-g3.py:82-90 | As written, "#-f0000" gives a red channel below 0; the strict parser gives opaque white |
| Color.DecodeSigned | ai-remove-background-g3.py:82-90 | The stripped string "-f0000" reads as -15/255 as written and as white strictly |
| Color.SeparatorPaddingRejected | ai-remove-background-g3.py:82-95 | U+001C counts as whitespace for `strip()` but not for `int()`, so "a\x1c0000" raises in the first pair and gives opaque white |
| Color.PaddedPairDiffers | ai-remove-background-g3.py:82-90 | As written, "#f f000" paints (15/255, 240/255, 0, 1) because `int("f ", 16)` is 15; the strict parser gives opaque white |
| Canvas.SquareResize | ai-remove-background-g3.py:236-240 | The side is max(w, h); each offset is the floor of half the growth; one offset is 0; the content fits on each axis |
| Canvas.SquareIsFixedPoint | ai-remove-background-g3.py:236-240 | A square canvas keeps its side and gets no shift |
| Canvas.SquareIdempotent | ai-remove-background-g3.py:236-240 | Squaring a squared canvas changes nothing |
| Canvas.LandscapeExample | ai-remove-background-g3.py:236-240 | 800 x 600 becomes 800 x 800, with the content at offset (0, 100) |
| Command.ResolveInterpreter | ai-remove-background-g3.py:60 | An empty executable becomes "python3"; a path not starting with '~' is used as it is |
| Command.ExpandUser | ai-remove-background-g3.py:60 | `expanduser` leaves paths without a leading '~' unchanged |
| Command.ExpandHome | ai-remove-background-g3.py:60 | "~" or "~/…" is replaced by HOME without its trailing slashes, or by "/" when nothing is left |
| Command.StripTrailingSlashes | ai-remove-background-g3.py:60 | The result is the input minus its trailing '/'s, and ends in no '/' |
| Command.SlashFrom | ai-remove-background-g3.py:60 | Finds the first '/' at or after a position |
| Command.CommandLine | ai-remove-background-g3.py:64-67 | The list starts with the interpreter, "-m", "rembg.cli", "i", "-m", model; it ends with the input and output paths; "-a", "-ae", str(ae) come in between exactly when matting is on; its length is 11 or 8 |
| Command.BuildCommand | ai-remove-background-g3.py:64-67 | The same appends, in the same order, build exactly CommandLine |
| Command.CommandLineRoundTrip | ai-remove-background-g3.py:64-67 | Parsing the list gives back the interpreter, model, erode size (when matting was on) and both paths |
| Command.NatToDecimal | ai-remove-background-g3.py:66 | `str` of a natural number is non-empty digits with no leading zero |
| Command.DigitChar | ai-remove-background-g3.py:66 | The decimal digit character for a value below ten |
| Command.NatDecimalRoundTrip | ai-remove-background-g3.py:66 | Reading the decimal text of n gives n |
| Command.DecimalRoundTrip | ai-remove-background-g3.py:66 | Reading `str(int(ae))`, signed, gives ae back |
| Command.IntToDecimal | ai-remove-background-g3.py:66 | `str(int(ae))` is non-empty and starts with '-' exactly for a negative value |
| Command.Message | ai-remove-background-g3.py:62-72 | The text of the raised error is never empty; a failing rembg reports its stderr when there is one; a missing interpreter's message ends with its path; the third text, "Output PNG was not created by rembg.", is the one raised at line 231 |
| Selection.DrawableForImage | ai-remove-background-g3.py:188-195 | The first selected layer if any; otherwise the first layer; none exactly when both are empty |
| Selection.NormalizeOffsets | ai-remove-background-g3.py:210-219 | A 3-tuple gives its last two entries, a 2-tuple both, anything else (0, 0) |
| Selection.IsolateVisibility | ai-remove-background-g3.py:48-51 | After the loop, layer i is visible exactly when i is the drawable's position |
| Selection.OneHotCount | ai-remove-background-g3.py:48-51 | Exactly one layer is visible when the position is in range, none otherwise |
| Trace.TransparentKeepsCutout | ai-remove-background-g3.py:177-179 | Transparent mode creates, fills, raises and merges nothing |
| Trace.BackgroundMergedOnce | ai-remove-background-g3.py:97-186 | Other modes create exactly one canvas-sized layer, RGBA exactly for Custom, and issue exactly one raise and one merge-down |
| Trace.BackgroundFilledThenMerged | ai-remove-background-g3.py:97-186 | The fill is WHITE, BLACK or the given colour as the mode says, and the log ends with the raise and the merge-down |
| Trace.OriginalRemoved | ai-remove-background-g3.py:169-174 | The original layer is removed exactly when one is given, and at most once |
| Trace.CutoutAtCapturedOffsets | ai-remove-background-g3.py:155-158 | The log starts with load, insert and placement at the captured offsets, and no other placement exists |
| Trace.CutoutOpsShape | ai-remove-background-g3.py:155-171 | The cutout part creates, fills, raises and merges nothing |
| Trace.BackgroundSplit | ai-remove-background-g3.py:146-186 | In a background mode the log is cutout, then background, then raise and merge |
| Trace.InsertStaysInImage | ai-remove-background-g3.py:146-186 | Inserting the result saves no file and starts no process |
| Trace.NetLayerChange | ai-remove-background-g3.py:146-186 | With an original layer the layer count ends as it started, in every mode |
| Trace.CutoutDelta | ai-remove-background-g3.py:155-171 | The cutout part adds one layer, less one if the original is removed |
| Trace.BackgroundDelta | ai-remove-background-g3.py:97-186 | The background layer is added and merged away |
| Trace.OccurrencesAppend | ai-remove-background-g3.py:146-186 | Counting operations in a log is additive over concatenation |
| Trace.OccurrencesAbsent | ai-remove-background-g3.py:146-186 | An operation counts zero exactly when it is absent |
| Trace.LayerDeltaAppend | ai-remove-background-g3.py:146-186 | The layer-count change of a log is additive over concatenation |
| Trace.FillOps | ai-remove-background-g3.py:116-132 | White, Black and Custom each issue exactly one fill, Custom painting the given colour; every other mode issues none |
| Trace.BackgroundOps | ai-remove-background-g3.py:102-134 | Nothing is issued exactly in Transparent mode; otherwise a canvas-sized layer, RGBA exactly for Custom, is created and then inserted |
| Trace.MaskOps | ai-remove-background-g3.py:160-167 | One mask is added exactly when asked, initialised from alpha exactly when the build has the alpha mask type |
| Trace.CutoutOps | ai-remove-background-g3.py:155-174 | The cutout is loaded, inserted and placed at the given offsets first; one operation follows per mask and per original layer, the removal of the original last |
| Trace.InsertOps | ai-remove-background-g3.py:146-186 | The cutout's operations come first; only Transparent mode stops there; every other mode ends with the raise and the merge-down |
| Pipeline.TempPathsDiffer | ai-remove-background-g3.py:221-223 | The JPEG and PNG hand-off paths differ in every temporary directory |
| Pipeline.PathJoin | ai-remove-background-g3.py:222-223 | `os.path.join` keeps the directory as a prefix and the name as a suffix, with a '/' between them when the directory is non-empty |
| Pipeline.CleanupStep | ai-remove-background-g3.py:36-42 | `_cleanup` only removes files: the log and the canvas are unchanged |
| Pipeline.ExportStep | ai-remove-background-g3.py:44-57 | Exporting appends three operations, adds the JPEG to the disk and no other file, and keeps the canvas |
| Pipeline.RembgStep | ai-remove-background-g3.py:59-72 | The step passes exactly when the interpreter exists and exits 0; a missing interpreter changes nothing; the PNG exists afterwards exactly when it did before or the started process wrote it; at most one operation is logged |
| Pipeline.InsertStep | ai-remove-background-g3.py:146-186 | Inserting the result appends at least three operations and touches neither the disk nor the canvas size |
| Pipeline.SquareStep | ai-remove-background-g3.py:236-240 | The canvas becomes a square at least as large as before on both axes, with one operation logged |
| Pipeline.SquareTail | ai-remove-background-g3.py:236-240 | The optional square block appends exactly the centred resize when asked, and nothing otherwise |
| Pipeline.Run | ai-remove-background-g3.py:197-247 | No drawable leaves the state as it was; a failure never resizes the canvas; a successful run asked to square ends with a square canvas |
| Pipeline.Host.Cleanup | ai-remove-background-g3.py:36-42 | The loop removes exactly the non-empty paths given, from the files on disk, and changes nothing else |
| Pipeline.Host.ExportDrawableAsJpg | ai-remove-background-g3.py:44-57 | Logs the duplicate, the merge of a duplicate showing only the drawable's position, and the save, and the JPEG is on disk |
| Pipeline.Host.RunRembg | ai-remove-background-g3.py:59-72 | A missing interpreter fails with nothing started; otherwise the one process is logged, its PNG appears if it wrote one, and a non-zero exit fails with its stderr |
| Pipeline.Host.NewBgLayer | ai-remove-background-g3.py:97-134 | Returns whether a layer was made (every mode but Transparent) and logs exactly the background operations for the canvas size and the parsed colour |
| Pipeline.Host.InsertResultLayer | ai-remove-background-g3.py:146-186 | Logs exactly the insertion operations for the current canvas and the parsed colour |
| Pipeline.Host.MakeSquare | ai-remove-background-g3.py:236-240 | Logs the resize and makes the canvas the centred square |
| Pipeline.Host.ProcessImage | ai-remove-background-g3.py:197-247 | The new state and outcome are exactly those of Run |
| Pipeline.NoDrawableNoEffect | ai-remove-background-g3.py:207-208 | With no drawable nothing is logged and no file is touched |
| Pipeline.MissingInterpreter | ai-remove-background-g3.py:60-62 | A missing interpreter fails with its path after the export, before any process starts; the JPEG stays |
| Pipeline.RembgFailure | ai-remove-background-g3.py:69-72 | A non-zero exit fails after the one process; the message is stderr or "rembg failed"; the JPEG stays, and the PNG exactly if written |
| Pipeline.MissingOutput | ai-remove-background-g3.py:230-231 | Exit 0 without the PNG fails with "Output PNG was not created"; nothing is loaded |
| Pipeline.SuccessfulRun | ai-remove-background-g3.py:221-247 | Success logs export, rembg, insertion at the normalised offsets in place of the drawable, and the resize if asked, in that order; it removes exactly both hand-off files; the canvas is squared exactly when asked |
| Pipeline.OutcomeExactly | ai-remove-background-g3.py:207-247 | The run succeeds exactly when there is no drawable, or the interpreter exists, rembg exits 0 and writes its PNG |
| Pipeline.TempFilesAfterRun | ai-remove-background-g3.py:225-247 | Every failure leaves the JPEG on disk; success leaves neither hand-off file |
| Pipeline.OneProcessPerImage | ai-remove-background-g3.py:207-247 | The log is only appended to; at most one process is started, the rembg command, exactly when there is a drawable and the interpreter exists |
| Pipeline.SuccessReplacesDrawable | ai-remove-background-g3.py:169-186 | A successful run (whose call on line 234 always passes the drawable) removes the drawable exactly once and merges exactly once, or never in Transparent mode |

## Left out

- GIMP and GEGL behaviour is not modelled. This covers duplicating, loading, saving,
  inserting, masking, merging, resizing and painting. Each call appears only as an
  operation in the log.
- `_mask_enum_alpha_fallback`'s `hasattr` probing is reduced to a boolean: whether the
  build has an alpha mask type. Its last resort `getattr(Gimp.AddMaskType, "ADD_WHITE")`
  has no default (line 144) and is called at line 161, outside the `try` of line 162,
  so a build without `ADD_WHITE` fails the whole run. `Trace.MaskOps` always issues
  `AddMask(AllWhite)` in that case.
- The swallowed exceptions of `create_mask`/`add_mask` and `remove_layer`
  (lines 159-174) are not modelled. The log shows the operation as issued.
- `os.remove` failures inside `_cleanup` are not modelled. In the model a present path
  is always removed.
- The process is not modelled: `subprocess.Popen`, `communicate`, stdout, and the
  UTF-8 decoding of stderr with errors ignored. Their result is the `ToolRun` input.
  Two cases cannot be expressed: `Popen` itself raising (an interpreter path that
  exists but cannot be executed, such as a directory), where the model's `RembgStep`
  still logs a `Spawn` that `OneProcessPerImage` counts; and `communicate()` never
  returning, since it has no time-out, where `ToolRun` always carries an exit status.
- Failures of the export save or of the PNG load are not modelled. Nor is any error
  GIMP raises.
- `tempfile.gettempdir()` is an input. `os.path.join` is modelled only for a relative
  file name.
- `expanduser`'s fallback to the password database when HOME is unset is not
  modelled. That database is a map from user names to home directories.
- `ParseColorRgba`: it reads a pair only when both characters are ASCII hex digits.
  Python's `int(pair, 16)` also accepts a sign, surrounding whitespace, and non-ASCII
  Unicode digits. The sign and the whitespace `int()` trims are modelled by
  `Color.ParseColorRgbaAsWritten`; only the sign is shown under Findings.
- `Color.ParseColorRgbaAsWritten`: non-ASCII Unicode decimal digits, which `int(pair, 16)`
  reads as their values (so "٣" counts as 3), are not modelled; such a pair gives opaque
  white in the model, as does every other malformed input.
- `Pipeline.Host.NewBgLayer`, `Pipeline.Host.InsertResultLayer`,
  `Pipeline.Host.ProcessImage` and `Pipeline.Run` paint with the strict
  `Color.ParseColorRgba`. A custom bg-color whose pair carries a sign or padding
  whitespace paints opaque white in the model, where the plug-in paints the lenient
  value: for `#f f000` it paints (15/255, 240/255, 0, 1), because `int("f ", 16)` is 15
  (`Color.PaddedPairDiffers`).
- Floating point is not modelled: channels are the exact reals `n/255`.
- `Pipeline.Host.ProcessImage` takes the model-index precondition from the
  registration's range 0..7 (line 280). It does not model Python's negative indexing.
- Plug-in registration, the dialog, `run`, the undo group, the batch loop over
  `Gimp.get_images()`, `Gimp.message` and `displays_flush` are not modelled. They
  carry no logic beyond calling `_get_drawable_for_image` and `_process_image`.

## Findings

| source | as written | input that shows it | evidently intended | confidence | as-written member | corrected member |
|---|---|---|---|---|---|---|
| ai-remove-background-g3.py:82-90 | each pair is read with `int(pair, 16)`, which accepts a sign, so a pair such as "-f" reads as -15 | bg_color "#-f0000" (Custom mode) | malformed input falls back to opaque white, and every channel lies in 0..1 as the docstring of lines 75-77 says | not executed | Color.SignedPairLeavesUnitRange | Color.ParseColorRgba |
