/**
 * The host operations the plug-in issues on GIMP, as an ordered log. GIMP's own
 * layer-stack semantics are not modelled; the log records which calls are made, with
 * which arguments, in which order.
 */
module Trace {
  import opened Wrappers
  import opened Color

  /** A layer of the image, identified by GIMP's item id. */
  type LayerId = nat

  /** Background modes, numbered as the "bg-mode" argument numbers them. */
  const BgTransparent := 0
  const BgWhite := 1
  const BgBlack := 2
  const BgCustom := 3

  /** How a new mask is initialised: from the layer's alpha, or fully opaque. */
  datatype MaskInit = FromAlpha | AllWhite

  datatype FillType = WhiteFill | BlackFill

  datatype Op =
    | Duplicate                         // image.duplicate()
    | MergeVisible(visible: seq<bool>)  // dup.merge_visible_layers, with the layers' visibility
    | SaveFile(path: string)            // Gimp.file_save of the duplicate
    | Spawn(argv: seq<string>)          // subprocess.Popen(argv)
    | LoadLayer(path: string)           // Gimp.file_load_layer
    | InsertCutout                      // image.insert_layer(cutout, None, 0)
    | SetOffsets(x: int, y: int)        // cutout.set_offsets
    | AddMask(init: MaskInit)           // cutout.create_mask + add_mask
    | RemoveLayer(id: LayerId)          // image.remove_layer
    | NewLayer(width: int, height: int, rgba: bool)  // Gimp.Layer.new for the background
    | InsertBackground                  // image.insert_layer(bg, None, -1)
    | Fill(fill: FillType)              // bg.fill
    | PaintSolid(color: Rgba)           // the GEGL solid-colour write into bg's buffer
    | RaiseCutoutToTop                  // image.raise_item_to_top(cutout)
    | MergeDown                         // image.merge_down(cutout, CLIP_TO_BOTTOM_LAYER)
    | Resize(width: int, height: int, offX: int, offY: int)  // image.resize

  /**
   * The fill `_new_bg_layer` applies: WHITE, BLACK, the custom colour, or none. `custom` is
   * the colour `_parse_color_rgba` gives for the "bg-color" string.
   */
  function FillOps(mode: int, custom: Rgba): (ops: seq<Op>)
    ensures |ops| == (if mode == BgWhite || mode == BgBlack || mode == BgCustom then 1 else 0)
    ensures ops != [] ==> ops[0].Fill? || ops[0].PaintSolid?
    ensures ops != [] && ops[0].PaintSolid? ==> ops[0].color == custom
  {
    if mode == BgWhite then [Fill(WhiteFill)]
    else if mode == BgBlack then [Fill(BlackFill)]
    else if mode == BgCustom then [PaintSolid(custom)]
    else []
  }

  /**
   * What `_new_bg_layer` issues on a `width` x `height` canvas: nothing for Transparent;
   * otherwise a canvas-sized layer (RGBA only for Custom), inserted, then filled.
   */
  function BackgroundOps(mode: int, custom: Rgba, width: int, height: int): (ops: seq<Op>)
    ensures ops == [] <==> mode == BgTransparent
    ensures ops != [] ==> |ops| >= 2 && ops[0].NewLayer? && ops[1] == InsertBackground
    ensures ops != [] ==> ops[0].width == width && ops[0].height == height
    ensures ops != [] ==> (ops[0].rgba <==> mode == BgCustom)
  {
    if mode == BgTransparent then []
    else [NewLayer(width, height, mode == BgCustom), InsertBackground] + FillOps(mode, custom)
  }

  /** The mask type `_mask_enum_alpha_fallback` finds: from alpha when the build has it. */
  function MaskOps(asMask: bool, alphaMaskAvailable: bool): (ops: seq<Op>)
    ensures |ops| == (if asMask then 1 else 0)
    ensures asMask ==> ops[0].AddMask? && (ops[0].init == FromAlpha <==> alphaMaskAvailable)
  {
    if asMask then [AddMask(if alphaMaskAvailable then FromAlpha else AllWhite)] else []
  }

  /**
   * What `_insert_result_layer` issues: the cutout's operations, then, unless the mode is
   * Transparent, the background's, ending with the raise and the merge.
   */
  function InsertOps(png: string, offX: int, offY: int, asMask: bool, alphaMaskAvailable: bool,
                     mode: int, custom: Rgba, orig: Option<LayerId>,
                     width: int, height: int): (ops: seq<Op>)
    ensures CutoutOps(png, offX, offY, asMask, alphaMaskAvailable, orig) <= ops
    ensures var c := CutoutOps(png, offX, offY, asMask, alphaMaskAvailable, orig);
      mode == BgTransparent <==> |ops| == |c|
    ensures mode != BgTransparent ==> ops[|ops| - 2] == RaiseCutoutToTop && ops[|ops| - 1] == MergeDown
  {
    CutoutOps(png, offX, offY, asMask, alphaMaskAvailable, orig)
    + (if mode == BgTransparent then []
       else BackgroundOps(mode, custom, width, height) + [RaiseCutoutToTop, MergeDown])
  }

  /**
   * Transparent mode keeps the cutout as it is: no background layer, no fill, no raise
   * and no merge are issued.
   */
  lemma TransparentKeepsCutout(png: string, offX: int, offY: int, asMask: bool, alphaMaskAvailable: bool,
                               custom: Rgba, orig: Option<LayerId>, width: int, height: int)
    ensures var t := InsertOps(png, offX, offY, asMask, alphaMaskAvailable, BgTransparent, custom, orig, width, height);
      forall o :: o in t ==> !o.NewLayer? && !o.Fill? && !o.PaintSolid? && o != RaiseCutoutToTop && o != MergeDown
  {
  }

  /** How many times `x` was issued in `t`. */
  function Occurrences(t: seq<Op>, x: Op): nat {
    if t == [] then 0 else Occurrences(t[..|t| - 1], x) + (if t[|t| - 1] == x then 1 else 0)
  }

  lemma {:induction false} OccurrencesAppend(a: seq<Op>, b: seq<Op>, x: Op)
    ensures Occurrences(a + b, x) == Occurrences(a, x) + Occurrences(b, x)
    decreases |b|
  {
    if b == [] {
      assert a + b == a;
    } else {
      assert (a + b)[..|a + b| - 1] == a + b[..|b| - 1];
      OccurrencesAppend(a, b[..|b| - 1], x);
    }
  }

  lemma {:induction false} OccurrencesAbsent(t: seq<Op>, x: Op)
    ensures Occurrences(t, x) == 0 <==> x !in t
    decreases |t|
  {
    if t != [] {
      assert t == t[..|t| - 1] + [t[|t| - 1]];
      OccurrencesAbsent(t[..|t| - 1], x);
    }
  }

  lemma OccurrencesSingle(x: Op, y: Op)
    ensures Occurrences([x], y) == if x == y then 1 else 0
  {
    assert [x][..0] == [];
  }

  /** The part of InsertOps before the background: load, insert, place, mask, remove. */
  function CutoutOps(png: string, offX: int, offY: int, asMask: bool, alphaMaskAvailable: bool,
                     orig: Option<LayerId>): (ops: seq<Op>)
    ensures |ops| == 3 + (if asMask then 1 else 0) + (if orig.Some? then 1 else 0)
    ensures ops[0] == LoadLayer(png) && ops[1] == InsertCutout && ops[2] == SetOffsets(offX, offY)
    ensures orig.Some? ==> ops[|ops| - 1] == RemoveLayer(orig.value)
  {
    [LoadLayer(png), InsertCutout, SetOffsets(offX, offY)]
    + MaskOps(asMask, alphaMaskAvailable)
    + (if orig.Some? then [RemoveLayer(orig.value)] else [])
  }

  lemma CutoutOpsShape(png: string, offX: int, offY: int, asMask: bool, alphaMaskAvailable: bool,
                       orig: Option<LayerId>)
    ensures var h := CutoutOps(png, offX, offY, asMask, alphaMaskAvailable, orig);
      forall o :: o in h ==> !o.NewLayer? && !o.Fill? && !o.PaintSolid? && o != RaiseCutoutToTop && o != MergeDown
  {
  }

  /** InsertOps in a background mode, cut at the seams the lemmas below reason about. */
  lemma BackgroundSplit(png: string, offX: int, offY: int, asMask: bool, alphaMaskAvailable: bool,
                        mode: int, custom: Rgba, orig: Option<LayerId>, width: int, height: int)
    requires mode != BgTransparent
    ensures InsertOps(png, offX, offY, asMask, alphaMaskAvailable, mode, custom, orig, width, height)
         == CutoutOps(png, offX, offY, asMask, alphaMaskAvailable, orig)
            + ([NewLayer(width, height, mode == BgCustom), InsertBackground] + FillOps(mode, custom))
            + [RaiseCutoutToTop, MergeDown]
  {
  }

  /**
   * Every other mode creates exactly one background layer, canvas-sized and RGBA exactly
   * for Custom, and issues exactly one raise of the cutout and exactly one merge-down.
   */
  lemma BackgroundMergedOnce(png: string, offX: int, offY: int, asMask: bool, alphaMaskAvailable: bool,
                             mode: int, custom: Rgba, orig: Option<LayerId>, width: int, height: int)
    requires mode != BgTransparent
    ensures var t := InsertOps(png, offX, offY, asMask, alphaMaskAvailable, mode, custom, orig, width, height);
      && Occurrences(t, NewLayer(width, height, mode == BgCustom)) == 1
      && (forall o :: o in t && o.NewLayer? ==> o == NewLayer(width, height, mode == BgCustom))
      && Occurrences(t, RaiseCutoutToTop) == 1
      && Occurrences(t, MergeDown) == 1
  {
    var head := CutoutOps(png, offX, offY, asMask, alphaMaskAvailable, orig);
    var nl := NewLayer(width, height, mode == BgCustom);
    var fill := FillOps(mode, custom);
    BackgroundSplit(png, offX, offY, asMask, alphaMaskAvailable, mode, custom, orig, width, height);
    CutoutOpsShape(png, offX, offY, asMask, alphaMaskAvailable, orig);
    assert forall o :: o in fill ==> o.Fill? || o.PaintSolid?;
    MergedOnceIn(head, nl, fill);
  }

  /** BackgroundMergedOnce on the assembled log, whatever the cutout and fill hold. */
  lemma MergedOnceIn(head: seq<Op>, nl: Op, fill: seq<Op>)
    requires nl.NewLayer?
    requires forall o :: o in head ==> !o.NewLayer? && o != RaiseCutoutToTop && o != MergeDown
    requires forall o :: o in fill ==> o.Fill? || o.PaintSolid?
    ensures var t := head + ([nl, InsertBackground] + fill) + [RaiseCutoutToTop, MergeDown];
      && Occurrences(t, nl) == 1
      && (forall o :: o in t && o.NewLayer? ==> o == nl)
      && Occurrences(t, RaiseCutoutToTop) == 1
      && Occurrences(t, MergeDown) == 1
  {
    CountAroundBackground(head, [nl, InsertBackground], fill, [RaiseCutoutToTop, MergeDown], nl);
    CountAroundBackground(head, [nl, InsertBackground], fill, [RaiseCutoutToTop, MergeDown], RaiseCutoutToTop);
    CountAroundBackground(head, [nl, InsertBackground], fill, [RaiseCutoutToTop, MergeDown], MergeDown);
    OccurrencesPair(nl, InsertBackground, nl);
    OccurrencesPair(nl, InsertBackground, RaiseCutoutToTop);
    OccurrencesPair(nl, InsertBackground, MergeDown);
    OccurrencesPair(RaiseCutoutToTop, MergeDown, nl);
    OccurrencesPair(RaiseCutoutToTop, MergeDown, RaiseCutoutToTop);
    OccurrencesPair(RaiseCutoutToTop, MergeDown, MergeDown);
  }

  lemma CountAroundBackground(head: seq<Op>, layer: seq<Op>, fill: seq<Op>, tail: seq<Op>, x: Op)
    requires x !in head && x !in fill
    ensures Occurrences(head + (layer + fill) + tail, x) == Occurrences(layer, x) + Occurrences(tail, x)
  {
    OccurrencesAbsent(head, x);
    OccurrencesAbsent(fill, x);
    OccurrencesAppend(head, layer + fill, x);
    OccurrencesAppend(head + (layer + fill), tail, x);
    OccurrencesAppend(layer, fill, x);
  }

  lemma OccurrencesPair(a: Op, b: Op, x: Op)
    ensures Occurrences([a, b], x) == (if a == x then 1 else 0) + (if b == x then 1 else 0)
  {
    assert [a, b][..1] == [a];
    OccurrencesSingle(a, x);
  }

  /**
   * The background is filled as the mode says (WHITE, BLACK, or the parsed custom colour),
   * and the last two operations are the raise of the cutout and the merge-down.
   */
  lemma BackgroundFilledThenMerged(png: string, offX: int, offY: int, asMask: bool, alphaMaskAvailable: bool,
                                   mode: int, custom: Rgba, orig: Option<LayerId>, width: int, height: int)
    requires mode != BgTransparent
    ensures var t := InsertOps(png, offX, offY, asMask, alphaMaskAvailable, mode, custom, orig, width, height);
      && t[|t| - 2..] == [RaiseCutoutToTop, MergeDown]
      && (mode == BgWhite ==> Fill(WhiteFill) in t && Fill(BlackFill) !in t)
      && (mode == BgBlack ==> Fill(BlackFill) in t && Fill(WhiteFill) !in t)
      && (mode == BgCustom ==> PaintSolid(custom) in t && forall o :: o in t ==> !o.Fill?)
  {
    var head := CutoutOps(png, offX, offY, asMask, alphaMaskAvailable, orig);
    var nl := NewLayer(width, height, mode == BgCustom);
    BackgroundSplit(png, offX, offY, asMask, alphaMaskAvailable, mode, custom, orig, width, height);
    CutoutOpsShape(png, offX, offY, asMask, alphaMaskAvailable, orig);
    FilledIn(head, nl, FillOps(mode, custom));
  }

  /** Where the fill and the final raise and merge sit in the assembled log. */
  lemma FilledIn(head: seq<Op>, nl: Op, fill: seq<Op>)
    requires nl.NewLayer?
    requires forall o :: o in head ==> !o.Fill?
    ensures var t := head + ([nl, InsertBackground] + fill) + [RaiseCutoutToTop, MergeDown];
      && t[|t| - 2..] == [RaiseCutoutToTop, MergeDown]
      && (forall o :: o in fill ==> o in t)
      && (forall o :: o in t && o.Fill? ==> o in fill)
  {
  }

  /** The original layer is removed exactly when there is one, and at most once. */
  lemma OriginalRemoved(png: string, offX: int, offY: int, asMask: bool, alphaMaskAvailable: bool,
                        mode: int, custom: Rgba, orig: Option<LayerId>, width: int, height: int,
                        id: LayerId)
    ensures var t := InsertOps(png, offX, offY, asMask, alphaMaskAvailable, mode, custom, orig, width, height);
      && (RemoveLayer(id) in t <==> orig == Some(id))
      && Occurrences(t, RemoveLayer(id)) <= 1
  {
    var t := InsertOps(png, offX, offY, asMask, alphaMaskAvailable, mode, custom, orig, width, height);
    var first := [LoadLayer(png), InsertCutout, SetOffsets(offX, offY)] + MaskOps(asMask, alphaMaskAvailable);
    var rm: seq<Op> := if orig.Some? then [RemoveLayer(orig.value)] else [];
    var rest := if mode == BgTransparent then []
       else BackgroundOps(mode, custom, width, height) + [RaiseCutoutToTop, MergeDown];
    assert t == first + rm + rest;
    assert forall o :: o in first ==> !o.RemoveLayer?;
    assert forall o :: o in rest ==> !o.RemoveLayer?;
    RemovedIn(first, orig, rest, id);
  }

  /** OriginalRemoved on the assembled log, whatever surrounds the removal. */
  lemma RemovedIn(first: seq<Op>, orig: Option<LayerId>, rest: seq<Op>, id: LayerId)
    requires forall o :: o in first ==> !o.RemoveLayer?
    requires forall o :: o in rest ==> !o.RemoveLayer?
    ensures var t := first + (if orig.Some? then [RemoveLayer(orig.value)] else []) + rest;
      && (RemoveLayer(id) in t <==> orig == Some(id))
      && Occurrences(t, RemoveLayer(id)) <= 1
  {
    var rm: seq<Op> := if orig.Some? then [RemoveLayer(orig.value)] else [];
    OccurrencesAbsent(first, RemoveLayer(id));
    OccurrencesAbsent(rest, RemoveLayer(id));
    OccurrencesAppend(first, rm, RemoveLayer(id));
    OccurrencesAppend(first + rm, rest, RemoveLayer(id));
    if orig.Some? {
      OccurrencesSingle(RemoveLayer(orig.value), RemoveLayer(id));
    }
  }

  /** The cutout is placed at the captured offsets right after it is inserted. */
  lemma CutoutAtCapturedOffsets(png: string, offX: int, offY: int, asMask: bool, alphaMaskAvailable: bool,
                                mode: int, custom: Rgba, orig: Option<LayerId>, width: int, height: int)
    ensures var t := InsertOps(png, offX, offY, asMask, alphaMaskAvailable, mode, custom, orig, width, height);
      && t[..3] == [LoadLayer(png), InsertCutout, SetOffsets(offX, offY)]
      && forall o :: o in t && o.SetOffsets? ==> o == SetOffsets(offX, offY)
  {
    var placed := [LoadLayer(png), InsertCutout, SetOffsets(offX, offY)];
    var mask := MaskOps(asMask, alphaMaskAvailable);
    var rm: seq<Op> := if orig.Some? then [RemoveLayer(orig.value)] else [];
    var cut := CutoutOps(png, offX, offY, asMask, alphaMaskAvailable, orig);
    var tail := if mode == BgTransparent then []
       else BackgroundOps(mode, custom, width, height) + [RaiseCutoutToTop, MergeDown];
    assert cut == placed + mask + rm;
    assert cut[..3] == placed;
    assert (cut + tail)[..3] == cut[..3];
    assert forall o :: o in mask + rm ==> !o.SetOffsets?;
    assert forall o :: o in tail ==> !o.SetOffsets?;
  }

  /** Inserting the result only edits the image: it writes no file and starts no process. */
  lemma InsertStaysInImage(png: string, offX: int, offY: int, asMask: bool, alphaMaskAvailable: bool,
                           mode: int, custom: Rgba, orig: Option<LayerId>, width: int, height: int)
    ensures var t := InsertOps(png, offX, offY, asMask, alphaMaskAvailable, mode, custom, orig, width, height);
      forall o :: o in t ==> !o.Spawn? && !o.SaveFile? && !o.Duplicate?
  {
    var head := CutoutOps(png, offX, offY, asMask, alphaMaskAvailable, orig);
    var tail := if mode == BgTransparent then []
       else BackgroundOps(mode, custom, width, height) + [RaiseCutoutToTop, MergeDown];
    assert forall o :: o in head ==> !o.Spawn? && !o.SaveFile? && !o.Duplicate?;
    assert forall o :: o in tail ==> !o.Spawn? && !o.SaveFile? && !o.Duplicate?;
    assert InsertOps(png, offX, offY, asMask, alphaMaskAvailable, mode, custom, orig, width, height) == head + tail;
  }

  /** How an issued operation changes the number of layers in the image's stack. */
  function OpDelta(o: Op): int {
    match o
    case InsertCutout => 1
    case InsertBackground => 1
    case RemoveLayer(_) => -1
    case MergeDown => -1
    case _ => 0
  }

  function LayerDelta(t: seq<Op>): int {
    if t == [] then 0 else LayerDelta(t[..|t| - 1]) + OpDelta(t[|t| - 1])
  }

  lemma {:induction false} LayerDeltaAppend(a: seq<Op>, b: seq<Op>)
    ensures LayerDelta(a + b) == LayerDelta(a) + LayerDelta(b)
    decreases |b|
  {
    if b == [] {
      assert a + b == a;
    } else {
      assert (a + b)[..|a + b| - 1] == a + b[..|b| - 1];
      LayerDeltaAppend(a, b[..|b| - 1]);
    }
  }

  lemma LayerDeltaSingle(o: Op)
    ensures LayerDelta([o]) == OpDelta(o)
  {
    assert [o][..0] == [];
  }

  lemma LayerDeltaPair(a: Op, b: Op)
    ensures LayerDelta([a, b]) == OpDelta(a) + OpDelta(b)
  {
    assert [a, b][..1] == [a];
    LayerDeltaSingle(a);
  }

  /**
   * In every mode the stack ends with as many layers as it had when an original layer is
   * removed: transparent adds the cutout and removes the original; the other modes also
   * add the background and merge it with the cutout.
   */
  lemma NetLayerChange(png: string, offX: int, offY: int, asMask: bool, alphaMaskAvailable: bool,
                       mode: int, custom: Rgba, orig: Option<LayerId>, width: int, height: int)
    ensures LayerDelta(InsertOps(png, offX, offY, asMask, alphaMaskAvailable, mode, custom, orig, width, height))
         == if orig.Some? then 0 else 1
  {
    var tail := if mode == BgTransparent then []
       else BackgroundOps(mode, custom, width, height) + [RaiseCutoutToTop, MergeDown];
    LayerDeltaAppend(CutoutOps(png, offX, offY, asMask, alphaMaskAvailable, orig), tail);
    CutoutDelta(png, offX, offY, asMask, alphaMaskAvailable, orig);
    if mode != BgTransparent {
      BackgroundDelta(mode, custom, width, height);
    }
  }

  /** Inserting the cutout adds one layer; removing the original takes one away. */
  lemma CutoutDelta(png: string, offX: int, offY: int, asMask: bool, alphaMaskAvailable: bool,
                    orig: Option<LayerId>)
    ensures LayerDelta(CutoutOps(png, offX, offY, asMask, alphaMaskAvailable, orig)) == if orig.Some? then 0 else 1
  {
    var placed := [LoadLayer(png), InsertCutout, SetOffsets(offX, offY)];
    var mask := MaskOps(asMask, alphaMaskAvailable);
    var rm: seq<Op> := if orig.Some? then [RemoveLayer(orig.value)] else [];
    LayerDeltaAppend(placed + mask, rm);
    LayerDeltaAppend(placed, mask);
    assert placed == [LoadLayer(png), InsertCutout] + [SetOffsets(offX, offY)];
    LayerDeltaAppend([LoadLayer(png), InsertCutout], [SetOffsets(offX, offY)]);
    LayerDeltaPair(LoadLayer(png), InsertCutout);
    LayerDeltaSingle(SetOffsets(offX, offY));
    if asMask {
      LayerDeltaSingle(AddMask(if alphaMaskAvailable then FromAlpha else AllWhite));
    }
    if orig.Some? {
      LayerDeltaSingle(RemoveLayer(orig.value));
    }
  }

  /** The background layer is added and then merged away with the cutout. */
  lemma BackgroundDelta(mode: int, custom: Rgba, width: int, height: int)
    requires mode != BgTransparent
    ensures LayerDelta(BackgroundOps(mode, custom, width, height) + [RaiseCutoutToTop, MergeDown]) == 0
  {
    var layer := [NewLayer(width, height, mode == BgCustom), InsertBackground];
    var fill := FillOps(mode, custom);
    LayerDeltaAppend(layer, fill);
    LayerDeltaAppend(layer + fill, [RaiseCutoutToTop, MergeDown]);
    LayerDeltaPair(NewLayer(width, height, mode == BgCustom), InsertBackground);
    LayerDeltaPair(RaiseCutoutToTop, MergeDown);
    if fill != [] {
      LayerDeltaSingle(fill[0]);
    }
  }
}
