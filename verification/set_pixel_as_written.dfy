/**
  The pixel write of `set_pixel` (src/lib.rs:99-111) as written, on the real
  position it is handed. The bounds test admits every position with
  `0 <= x < 800` and `0 <= y < 600`, and the byte index is four times
  `y * 800 + x` truncated to a whole number. On the last row a fractional
  position can push that index past the end of the frame.
 */
module SetPixelAsWritten {
  import opened Algebra
  import opened Raster
  import opened Figures

  /** The bounds test of `set_pixel` on a real position. */
  predicate PassesBoundsTest(p: Vertex) {
    && p.x < WIDTH as real
    && p.y < HEIGHT as real
    && p.x >= 0.0
    && p.y >= 0.0
  }

  /**
    The byte index `4 * (y * WIDTH + x) as usize` of a position that passed
    the bounds test: a multiple of four whose quarter is `y * WIDTH + x`
    rounded towards zero (which is down, the value being non-negative).
   */
  function CastIndex(p: Vertex): (i: int)
    requires PassesBoundsTest(p)
    ensures i >= 0 && i % 4 == 0
    ensures (i / 4) as real <= p.y * WIDTH as real + p.x < (i / 4 + 1) as real
  {
    4 * (p.y * WIDTH as real + p.x).Floor
  }

  /**
    A position that passed the bounds test writes inside the frame exactly
    when `y * WIDTH + x` is below `WIDTH * HEIGHT`.
   */
  lemma CastIndexInFrame(p: Vertex)
    requires PassesBoundsTest(p)
    ensures CastIndex(p) + 3 < ScreenLen <==> p.y * WIDTH as real + p.x < (WIDTH * HEIGHT) as real
  {
  }

  /**
    The position (799.5, 599.5) passes the bounds test, yet its index
    4 * 480399 = 1921596 is past the 1920000 bytes of the frame, so
    `screen[index]` panics.
   */
  lemma CornerIndexPastFrame()
    ensures PassesBoundsTest(Vertex(799.5, 599.5))
    ensures CastIndex(Vertex(799.5, 599.5)) >= ScreenLen
  {
  }

  /**
    Rounding a position that passes the bounds test down to the pixel that
    contains it gives an on-frame pixel, whose four bytes all lie inside
    the frame; on whole-number positions the index is the one the source
    computes.
   */
  lemma SnapStaysInFrame(p: Vertex)
    requires PassesBoundsTest(p)
    ensures InBounds(Snap(p))
    ensures PixelIndex(Snap(p)) + 3 < ScreenLen
    ensures Integral(p) ==> PixelIndex(Snap(p)) == CastIndex(p)
  {
  }
}
