/**
  The loop of `line` (src/lib.rs:69-96) as written, over the real
  coordinates of the vertices it is handed, with no rounding to pixels.
  It stops only when `current` equals `end` exactly, and every step moves
  `current` by a whole amount, so an edge whose endpoints differ by a
  fraction never reaches its stop test.
 */
module LineAsWritten {
  import opened Algebra

  /** The variables of the loop: the position reached and the error accumulator. */
  datatype Cursor = Cursor(current: Vertex, err: real)

  function RealAbs(r: real): real {
    if r < 0.0 then -r else r
  }

  /** The unit step of one axis towards `to`: 1.0 when `from < to`, otherwise -1.0. */
  function RealStep(from: real, to: real): real {
    if from < to then 1.0 else -1.0
  }

  /** `r` is a whole number. */
  predicate Whole(r: real) {
    r == r.Floor as real
  }

  /**
    The state before the first iteration: at `start`, zero steps from it on
    both axes, with `err = dx - dy`, which lies between `-dy` and `dx`.
   */
  function Begin(start: Vertex, end: Vertex): (c: Cursor)
    ensures c.current == start
    ensures c.err == RealAbs(end.x - start.x) - RealAbs(end.y - start.y)
    ensures Whole(c.current.x - start.x) && Whole(c.current.y - start.y)
    ensures -RealAbs(end.y - start.y) <= c.err <= RealAbs(end.x - start.x)
  {
    Cursor(start, RealAbs(end.x - start.x) - RealAbs(end.y - start.y))
  }

  /**
    One pass through the loop body after the pixel is plotted and the stop
    test failed: with `e2 = 2 * err`, step x and take `dy` off when
    `e2 > -dy`, then step y and add `dx` when `e2 < dx`.
   */
  function Advance(start: Vertex, end: Vertex, c: Cursor): (c': Cursor)
    ensures c'.current.x - c.current.x in {0.0, RealStep(start.x, end.x)}
    ensures c'.current.y - c.current.y in {0.0, RealStep(start.y, end.y)}
  {
    var dx, dy := RealAbs(end.x - start.x), RealAbs(end.y - start.y);
    var e2 := 2.0 * c.err;
    var afterX := if e2 > -dy then Cursor(c.current.(x := c.current.x + RealStep(start.x, end.x)), c.err - dy) else c;
    if e2 < dx then Cursor(afterX.current.(y := afterX.current.y + RealStep(start.y, end.y)), afterX.err + dx) else afterX
  }

  /** The state after `n` iterations, stop test ignored. */
  function Iterate(start: Vertex, end: Vertex, n: nat): Cursor {
    if n == 0 then Begin(start, end) else Advance(start, end, Iterate(start, end, n - 1))
  }

  /** Adding 0 or a unit to a whole number gives a whole number. */
  lemma WholeShift(r: real, d: real)
    requires Whole(r)
    requires d in {0.0, 1.0, -1.0}
    ensures Whole(r + d)
  {
    var k := if d == 1.0 then 1 else if d == -1.0 then -1 else 0;
    assert d == k as real;
    assert r + d == (r.Floor + k) as real;
  }

  /** However many iterations run, `current` is a whole number of pixels from `start` on both axes. */
  lemma {:induction false} OffsetStaysWhole(start: Vertex, end: Vertex, n: nat)
    ensures Whole(Iterate(start, end, n).current.x - start.x)
    ensures Whole(Iterate(start, end, n).current.y - start.y)
  {
    if n > 0 {
      OffsetStaysWhole(start, end, n - 1);
      var c, c' := Iterate(start, end, n - 1), Iterate(start, end, n);
      WholeShift(c.current.x - start.x, c'.current.x - c.current.x);
      WholeShift(c.current.y - start.y, c'.current.y - c.current.y);
    }
  }

  /**
    When `end - start` is not whole on some axis, the stop test
    `current == end` fails at every iteration: the loop never terminates.
   */
  lemma NeverStops(start: Vertex, end: Vertex, n: nat)
    requires !Whole(end.x - start.x) || !Whole(end.y - start.y)
    ensures Iterate(start, end, n).current != end
  {
    OffsetStaysWhole(start, end, n);
  }

  /**
    A concrete edge with a half-pixel difference: from (0, 0) to (0.5, 0)
    the stop test never succeeds.
   */
  lemma HalfPixelEdgeNeverStops(n: nat)
    ensures Iterate(Vertex(0.0, 0.0), Vertex(0.5, 0.0), n).current != Vertex(0.5, 0.0)
  {
    NeverStops(Vertex(0.0, 0.0), Vertex(0.5, 0.0), n);
  }

  /**
    Endpoints whose difference is whole on both axes but which share a
    fractional part do stop: from (0.5, 0) to (2.5, 0) the third state is
    the end.
   */
  lemma SharedFractionStops()
    ensures Iterate(Vertex(0.5, 0.0), Vertex(2.5, 0.0), 2).current == Vertex(2.5, 0.0)
  {
  }
}
