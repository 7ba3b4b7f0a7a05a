/**
 * Choosing what the plug-in works on: the drawable of an image in batch mode, the
 * drawable's offsets as GIMP reports them, and the visibility of the duplicate's layers
 * before it is flattened for export.
 */
module Selection {
  import opened Wrappers

  /**
   * `_get_drawable_for_image`: the first selected layer, else the first layer, else
   * None. `selected` is None when the image has no callable `get_selected_layers`.
   */
  function DrawableForImage<L>(selected: Option<seq<L>>, layers: seq<L>): (d: Option<L>)
    ensures d.None? <==> (selected.None? || selected.value == []) && layers == []
    ensures selected.Some? && selected.value != [] ==> d == Some(selected.value[0])
    ensures (selected.None? || selected.value == []) && layers != [] ==> d == Some(layers[0])
  {
    if selected.Some? && selected.value != [] then Some(selected.value[0])
    else if layers != [] then Some(layers[0])
    else None
  }

  /** What `drawable.get_offsets()` returned: a tuple of values, or something else. */
  datatype Offsets = Tuple(items: seq<int>) | NotATuple

  /**
   * The offset normalisation of `_process_image`: a 2- or 3-tuple gives its last two
   * entries (a leading success flag is dropped); anything else gives (0, 0).
   */
  function NormalizeOffsets(offs: Offsets): (xy: (int, int))
    ensures offs.Tuple? && (|offs.items| == 2 || |offs.items| == 3)
      ==> xy == (offs.items[|offs.items| - 2], offs.items[|offs.items| - 1])
    ensures !(offs.Tuple? && (|offs.items| == 2 || |offs.items| == 3)) ==> xy == (0, 0)
  {
    match offs
    case NotATuple => (0, 0)
    case Tuple(t) =>
      if |t| == 3 then (t[1], t[2])
      else if |t| == 2 then (t[0], t[1])
      else (0, 0)
  }

  /** The visibility the export loop leaves: only the layer at `pos` is visible. */
  function OneHot(n: nat, pos: int): seq<bool> {
    seq(n, i => i == pos)
  }

  function CountVisible(v: seq<bool>): nat {
    if v == [] then 0 else CountVisible(v[..|v| - 1]) + (if v[|v| - 1] then 1 else 0)
  }

  /** When `pos` is a layer index exactly one layer is visible; otherwise none is. */
  lemma {:induction false} OneHotCount(n: nat, pos: int)
    ensures CountVisible(OneHot(n, pos)) == if 0 <= pos < n then 1 else 0
  {
    if n > 0 {
      assert OneHot(n, pos)[..n - 1] == OneHot(n - 1, pos);
      OneHotCount(n - 1, pos);
    }
  }

  /**
   * The loop of `_export_drawable_as_jpg`: `L.set_visible(i == pos)` for every layer of the
   * duplicate, whatever its visibility was before.
   */
  method IsolateVisibility(visible: array<bool>, pos: int)
    modifies visible
    ensures visible[..] == OneHot(visible.Length, pos)
  {
    for i := 0 to visible.Length
      invariant forall k :: 0 <= k < i ==> visible[k] == (k == pos)
    {
      visible[i] := i == pos;
    }
  }
}
