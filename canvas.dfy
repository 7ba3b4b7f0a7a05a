/**
 * The "Make Square" step of `_process_image`: the canvas grows to a square whose side
 * is the larger dimension, and the old content is centred with floor division.
 */
module Canvas {

  /** The arguments of `image.resize(side, side, offX, offY)`. */
  datatype Resize = Resize(side: nat, offX: nat, offY: nat)

  /**
   * `max_side = max(w, h)` and offsets `((max_side - w) // 2, (max_side - h) // 2)`.
   * Both differences are non-negative, so Dafny's division agrees with Python's `//`.
   */
  function SquareResize(w: nat, h: nat): (r: Resize)
    ensures r.side >= w && r.side >= h && (r.side == w || r.side == h)
    ensures 2 * r.offX <= r.side - w <= 2 * r.offX + 1
    ensures 2 * r.offY <= r.side - h <= 2 * r.offY + 1
    ensures r.offX == 0 || r.offY == 0
    ensures r.offX + w <= r.side && r.offY + h <= r.side
  {
    var side := if w >= h then w else h;
    Resize(side, (side - w) / 2, (side - h) / 2)
  }

  /** A square canvas is left as it is: same side, no shift. */
  lemma SquareIsFixedPoint(n: nat)
    ensures SquareResize(n, n) == Resize(n, 0, 0)
  {
  }

  /**
   * Squaring twice is squaring once: the second application sees a square canvas, so it
   * keeps the side and shifts nothing.
   */
  lemma SquareIdempotent(w: nat, h: nat)
    ensures var r := SquareResize(w, h); SquareResize(r.side, r.side) == Resize(r.side, 0, 0)
  {
    SquareIsFixedPoint(SquareResize(w, h).side);
  }

  /** An 800 x 600 canvas becomes 800 x 800 with the content 100 pixels from the top. */
  lemma LandscapeExample()
    ensures SquareResize(800, 600) == Resize(800, 0, 100)
  {
  }
}
