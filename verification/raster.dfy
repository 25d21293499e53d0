/**
  The rasteriser of src/lib.rs: the fixed frame size, colours, the clipped
  pixel write `set_pixel` and the all-octant Bresenham `line`.

  The frame is a flat row-major sequence of bytes, four per pixel in the
  order red, green, blue, alpha, with the origin at the top-left corner.
  Pixel positions are integers. The source loop ends only when the
  endpoints differ by a whole number on both axes, and whole-number
  endpoints always meet that.
 */
module Raster {

  /** Frame width in pixels. */
  const WIDTH: int := 800
  /** Frame height in pixels. */
  const HEIGHT: int := 600
  /** Number of bytes in a frame: four per pixel. */
  const ScreenLen: int := WIDTH * HEIGHT * 4

  /** An unsigned 8-bit value. */
  type Byte = b: int | 0 <= b < 256

  datatype Color = Color(red: Byte, green: Byte, blue: Byte, alpha: Byte)

  /** The opaque red that `line` plots with. */
  const LineColor: Color := Color(255, 0, 0, 255)

  /** A pixel position: column x, row y. */
  datatype Point = Point(x: int, y: int)

  /** The pixel lies on the frame. */
  predicate InBounds(p: Point) {
    0 <= p.x < WIDTH && 0 <= p.y < HEIGHT
  }

  /** Offset of the red byte of pixel `p` in the frame. */
  function PixelIndex(p: Point): int {
    4 * (p.y * WIDTH + p.x)
  }

  /** The pixel that owns byte `k` of the frame. */
  function PixelAt(k: nat): Point {
    Point((k / 4) % WIDTH, (k / 4) / WIDTH)
  }

  /** Byte `k` is one of the four bytes of pixel `p`. */
  predicate Covers(p: Point, k: int) {
    PixelIndex(p) <= k < PixelIndex(p) + 4
  }

  /** The four bytes of on-frame pixel `p` hold colour `c`. */
  predicate Painted(screen: seq<Byte>, p: Point, c: Color)
    requires InBounds(p) && ScreenLen <= |screen|
  {
    && screen[PixelIndex(p)] == c.red
    && screen[PixelIndex(p) + 1] == c.green
    && screen[PixelIndex(p) + 2] == c.blue
    && screen[PixelIndex(p) + 3] == c.alpha
  }

  /**
    `set_pixel`: write the four bytes of `c` at pixel `p` when `p` lies on the
    frame, and leave the frame untouched otherwise.
   */
  function SetPixel(p: Point, c: Color, screen: seq<Byte>): (r: seq<Byte>)
    requires ScreenLen <= |screen|
    ensures |r| == |screen|
    ensures !InBounds(p) ==> r == screen
    ensures InBounds(p) ==> 0 <= PixelIndex(p) && PixelIndex(p) + 3 < ScreenLen
    ensures InBounds(p) ==> Painted(r, p, c)
    ensures forall k :: 0 <= k < |screen| && !(InBounds(p) && Covers(p, k)) ==> r[k] == screen[k]
  {
    if p.x < WIDTH && p.y < HEIGHT && p.x >= 0 && p.y >= 0 then
      var index := PixelIndex(p);
      screen[index := c.red][index + 1 := c.green][index + 2 := c.blue][index + 3 := c.alpha]
    else
      screen
  }

  /** Every on-frame pixel is recovered from the offset of its red byte. */
  lemma PixelIndexRoundTrip(p: Point)
    requires InBounds(p)
    ensures 0 <= PixelIndex(p) < ScreenLen
    ensures PixelAt(PixelIndex(p)) == p
  {
  }

  /** Every byte of the frame belongs to exactly the on-frame pixel `PixelAt(k)`. */
  lemma PixelAtCovers(k: nat)
    requires k < ScreenLen
    ensures InBounds(PixelAt(k))
    ensures Covers(PixelAt(k), k)
    ensures forall p :: InBounds(p) && Covers(p, k) ==> p == PixelAt(k)
  {
  }

  /** Two different on-frame pixels never share a byte. */
  lemma DistinctPixelsDisjoint(p: Point, q: Point, k: int)
    requires InBounds(p) && InBounds(q) && p != q
    requires Covers(p, k)
    ensures !Covers(q, k)
  {
  }

  /**
    The frame after plotting every pixel of `path` with `c`, first to last.
    Off-frame pixels are skipped, as `set_pixel` skips them.
   */
  function PlotAll(screen: seq<Byte>, path: seq<Point>, c: Color): (r: seq<Byte>)
    requires ScreenLen <= |screen|
    ensures |r| == |screen|
    decreases |path|
  {
    if path == [] then screen
    else SetPixel(path[|path| - 1], c, PlotAll(screen, path[..|path| - 1], c))
  }

  /** Plotting one more pixel after a path is one more `set_pixel`. */
  lemma PlotAllSnoc(screen: seq<Byte>, path: seq<Point>, p: Point, c: Color)
    requires ScreenLen <= |screen|
    ensures PlotAll(screen, path + [p], c) == SetPixel(p, c, PlotAll(screen, path, c))
  {
    assert (path + [p])[..|path|] == path;
  }

  /** Plotting two paths one after the other is plotting their concatenation. */
  lemma {:induction false} PlotAllAppend(screen: seq<Byte>, a: seq<Point>, b: seq<Point>, c: Color)
    requires ScreenLen <= |screen|
    ensures PlotAll(screen, a + b, c) == PlotAll(PlotAll(screen, a, c), b, c)
    decreases |b|
  {
    if b == [] {
      assert a + b == a;
    } else {
      var b' := b[..|b| - 1];
      assert (a + b)[..|a + b| - 1] == a + b';
      PlotAllAppend(screen, a, b', c);
    }
  }

  /** A byte that no on-frame pixel of `path` covers keeps its value. */
  lemma {:induction false} PlotAllFrame(screen: seq<Byte>, path: seq<Point>, c: Color, k: int)
    requires ScreenLen <= |screen|
    requires 0 <= k < |screen|
    requires forall i :: 0 <= i < |path| ==> !(InBounds(path[i]) && Covers(path[i], k))
    ensures PlotAll(screen, path, c)[k] == screen[k]
    decreases |path|
  {
    if path != [] {
      PlotAllFrame(screen, path[..|path| - 1], c, k);
    }
  }

  /** Every on-frame pixel of `path` ends up holding the colour `c`. */
  lemma {:induction false} PlotAllPaints(screen: seq<Byte>, path: seq<Point>, c: Color, p: Point)
    requires ScreenLen <= |screen|
    requires p in path && InBounds(p)
    ensures Painted(PlotAll(screen, path, c), p, c)
    decreases |path|
  {
    var last := path[|path| - 1];
    var prefix := path[..|path| - 1];
    if last != p {
      assert p in prefix by {
        var i :| 0 <= i < |path| && path[i] == p;
        assert prefix[i] == p;
      }
      PlotAllPaints(screen, prefix, c, p);
      var k := PixelIndex(p);
      if InBounds(last) {
        DistinctPixelsDisjoint(p, last, k);
        DistinctPixelsDisjoint(p, last, k + 1);
        DistinctPixelsDisjoint(p, last, k + 2);
        DistinctPixelsDisjoint(p, last, k + 3);
      }
    }
  }

  function Abs(n: int): int {
    if n < 0 then -n else n
  }

  function Max(a: int, b: int): int {
    if a < b then b else a
  }

  /** The unit step of one axis: +1 when `from` lies below `to`, otherwise -1 (also when equal). */
  function StepToward(from: int, to: int): int {
    if from < to then 1 else -1
  }

  /** `v` lies between `a` and `b`, both included, whichever is larger. */
  predicate Within(v: int, a: int, b: int) {
    (a <= v <= b) || (b <= v <= a)
  }

  /**
    One iteration of `line` from pixel `p` to pixel `q`: each coordinate moves
    by 0 or by the step towards `end`, and at least one of them moves.
   */
  predicate IsStep(p: Point, q: Point, start: Point, end: Point) {
    && (q.x == p.x || q.x == p.x + StepToward(start.x, end.x))
    && (q.y == p.y || q.y == p.y + StepToward(start.y, end.y))
    && q != p
  }

  /**
    The band Bresenham's error term stays in: `2 * e` lies in `[-dx, dx)` when
    x is the longer axis (or the axes are equally long), and in `(-dy, dy]`
    when y is longer.
   */
  predicate InBand(e: int, dx: int, dy: int) {
    && (dx >= dy ==> -dx <= 2 * e && (2 * e < dx || dx == 0))
    && (dy > dx ==> -dy < 2 * e <= dy)
  }

  /**
    Pixel `p`, `a` columns and `b` rows away from `start`, lies within half a
    pixel of the exact segment from `start` to `end`, measured along the
    shorter axis: `b * dx - a * dy` is in the band of the longer axis, with
    ties broken as `line` breaks them.
   */
  predicate NearLine(p: Point, start: Point, end: Point) {
    var dx, dy := Abs(end.x - start.x), Abs(end.y - start.y);
    InBand(Abs(p.y - start.y) * dx - Abs(p.x - start.x) * dy, dx, dy)
  }

  /**
    The pixels `line` plots from `start` to `end`, in order: `start` first,
    `end` last and nowhere earlier, consecutive pixels one step apart, none
    outside the box spanned by the endpoints, one pixel per unit of the
    longer axis plus one, and each pixel within half a pixel of the exact
    segment. `LinePathUnique` shows that exactly one path meets all of these.
   */
  predicate IsLinePath(path: seq<Point>, start: Point, end: Point) {
    && |path| == Max(Abs(end.x - start.x), Abs(end.y - start.y)) + 1
    && path[0] == start
    && path[|path| - 1] == end
    && (forall k :: 0 <= k < |path| - 1 ==> path[k] != end)
    && (forall k :: 0 <= k < |path| - 1 ==> IsStep(path[k], path[k + 1], start, end))
    && (forall k :: 0 <= k < |path| ==> Within(path[k].x, start.x, end.x) && Within(path[k].y, start.y, end.y))
    && (forall k :: 0 <= k < |path| ==> NearLine(path[k], start, end))
  }

  /** Along one axis, a pixel in the box is fixed by its distance from the start. */
  lemma AxisDetermined(u: int, v: int, s: int, e: int)
    requires Within(u, s, e) && Within(v, s, e)
    requires Abs(u - s) == Abs(v - s)
    ensures u == v
  {
  }

  /** Along one axis, a step towards the end inside the box moves 0 or 1 further from the start. */
  lemma AxisStep(u: int, v: int, s: int, e: int)
    requires Within(u, s, e) && Within(v, s, e)
    requires v == u || v == u + StepToward(s, e)
    ensures Abs(u - s) <= Abs(v - s) <= Abs(u - s) + 1
  {
  }

  /** Counts that start at 0 and rise by 0 or 1 per entry never run ahead of the index. */
  lemma {:induction false} StairUp(o: seq<int>, k: nat)
    requires |o| > 0 && o[0] == 0
    requires forall j :: 0 <= j < |o| - 1 ==> o[j] <= o[j + 1] <= o[j] + 1
    requires k < |o|
    ensures o[k] <= k
  {
    if k > 0 {
      StairUp(o, k - 1);
    }
  }

  /** Counts that rise by 0 or 1 per entry and end at the last index never fall behind it. */
  lemma {:induction false} StairDown(o: seq<int>, k: nat)
    requires |o| > 0 && o[|o| - 1] == |o| - 1
    requires forall j :: 0 <= j < |o| - 1 ==> o[j] <= o[j + 1] <= o[j] + 1
    requires k < |o|
    ensures o[k] >= k
    decreases |o| - k
  {
    if k < |o| - 1 {
      StairDown(o, k + 1);
    }
  }

  /** A count from 0 to `|o| - 1` in steps of 0 or 1 equals its index at every entry. */
  lemma Staircase(o: seq<int>, k: nat)
    requires |o| > 0 && o[0] == 0 && o[|o| - 1] == |o| - 1
    requires forall j :: 0 <= j < |o| - 1 ==> o[j] <= o[j + 1] <= o[j] + 1
    requires k < |o|
    ensures o[k] == k
  {
    StairUp(o, k);
    StairDown(o, k);
  }

  /** When x is the longer axis (or the axes are equally long), the pixel at index `k` of a line path is `k` columns from `start`. */
  lemma ColumnOffsets(path: seq<Point>, start: Point, end: Point)
    requires IsLinePath(path, start, end)
    requires Abs(end.x - start.x) >= Abs(end.y - start.y)
    ensures forall k :: 0 <= k < |path| ==> Abs(path[k].x - start.x) == k
  {
    var o := seq(|path|, k requires 0 <= k < |path| => Abs(path[k].x - start.x));
    forall j | 0 <= j < |path| - 1
      ensures o[j] <= o[j + 1] <= o[j] + 1
    {
      AxisStep(path[j].x, path[j + 1].x, start.x, end.x);
    }
    forall k | 0 <= k < |path|
      ensures Abs(path[k].x - start.x) == k
    {
      Staircase(o, k);
    }
  }

  /** When y is the longer axis (or the axes are equally long), the pixel at index `k` of a line path is `k` rows from `start`. */
  lemma RowOffsets(path: seq<Point>, start: Point, end: Point)
    requires IsLinePath(path, start, end)
    requires Abs(end.y - start.y) >= Abs(end.x - start.x)
    ensures forall k :: 0 <= k < |path| ==> Abs(path[k].y - start.y) == k
  {
    var o := seq(|path|, k requires 0 <= k < |path| => Abs(path[k].y - start.y));
    forall j | 0 <= j < |path| - 1
      ensures o[j] <= o[j + 1] <= o[j] + 1
    {
      AxisStep(path[j].y, path[j + 1].y, start.y, end.y);
    }
    forall k | 0 <= k < |path|
      ensures Abs(path[k].y - start.y) == k
    {
      Staircase(o, k);
    }
  }

  /** Two counts whose multiples of `d` lie in the same half-open band of width `d` around `c` are equal. */
  lemma BandUnique(u: int, v: int, d: int, c: int)
    requires d > 0
    requires -d <= 2 * (u * d - c) < d
    requires -d <= 2 * (v * d - c) < d
    ensures u == v
  {
    if u > v {
      MulMono(v + 1, u, d);
      MulSucc(v, d);
    } else if v > u {
      MulMono(u + 1, v, d);
      MulSucc(u, d);
    }
  }

  /** Two line paths between the same endpoints agree at index `k`. */
  lemma SamePixel(p1: seq<Point>, p2: seq<Point>, start: Point, end: Point, k: nat)
    requires IsLinePath(p1, start, end) && IsLinePath(p2, start, end)
    requires k < |p1|
    ensures p1[k] == p2[k]
  {
    var dx, dy := Abs(end.x - start.x), Abs(end.y - start.y);
    assert NearLine(p1[k], start, end) && NearLine(p2[k], start, end);
    var x1, y1 := Abs(p1[k].x - start.x), Abs(p1[k].y - start.y);
    var x2, y2 := Abs(p2[k].x - start.x), Abs(p2[k].y - start.y);
    if dx >= dy && dx > 0 {
      ColumnOffsets(p1, start, end);
      ColumnOffsets(p2, start, end);
      assert x1 == k && x2 == k;
      BandUnique(y1, y2, dx, k * dy);
    } else if dy > dx {
      RowOffsets(p1, start, end);
      RowOffsets(p2, start, end);
      assert y1 == k && y2 == k;
      BandUnique(x1, x2, dy, k * dx);
    }
    AxisDetermined(p1[k].x, p2[k].x, start.x, end.x);
    AxisDetermined(p1[k].y, p2[k].y, start.y, end.y);
  }

  /**
    Exactly one path is a line path between two pixels: the properties of
    `IsLinePath` fix every pixel, so any two paths meeting them are equal.
   */
  lemma LinePathUnique(p1: seq<Point>, p2: seq<Point>, start: Point, end: Point)
    requires IsLinePath(p1, start, end) && IsLinePath(p2, start, end)
    ensures p1 == p2
  {
    forall k | 0 <= k < |p1|
      ensures p1[k] == p2[k]
    {
      SamePixel(p1, p2, start, end, k);
    }
  }

  /** From (0, 0) to (4, 2) `line` plots (0, 0), (1, 0), (2, 1), (3, 1), (4, 2), and that is a line path. */
  lemma ShallowLinePlotted()
    ensures IsLinePath([Point(0, 0), Point(1, 0), Point(2, 1), Point(3, 1), Point(4, 2)], Point(0, 0), Point(4, 2))
  {
  }

  /**
    The staircase from (0, 0) through (1, 1) and (2, 2) to (4, 2) has the
    right length, steps and box, but strays a full half pixel from the
    segment at (1, 1), so it is not a line path.
   */
  lemma ShallowStaircaseRejected()
    ensures !IsLinePath([Point(0, 0), Point(1, 1), Point(2, 2), Point(3, 2), Point(4, 2)], Point(0, 0), Point(4, 2))
  {
    var stray := [Point(0, 0), Point(1, 1), Point(2, 2), Point(3, 2), Point(4, 2)];
    assert !NearLine(stray[1], Point(0, 0), Point(4, 2));
  }

  /**
    The arithmetic behind one iteration of `line` that has not reached `end`.
    With `a` steps taken along x out of `dx` and `b` along y out of `dy`, the
    accumulator equals `(b + 1) * dx - (a + 1) * dy`; then an x step only
    happens while x is short of `end`, a y step only while y is, and at
    least one of the two happens.
   */
  lemma StepArithmetic(dx: int, dy: int, a: int, b: int, ady: int, bdx: int, err: int)
    requires 0 <= a <= dx && 0 <= b <= dy
    requires ady == a * dy && bdx == b * dx
    requires err == bdx + dx - ady - dy
    requires a != dx || b != dy
    ensures 2 * err > -dy ==> a < dx
    ensures 2 * err < dx ==> b < dy
    ensures 2 * err > -dy || 2 * err < dx
  {
    if a == dx && b < dy {
      MulMono(b, dy - 1, dx);
      MulSucc(dy - 1, dx);
      MulComm(dx, dy);
    }
    if b == dy && a < dx {
      MulMono(a, dx - 1, dy);
      MulSucc(dx - 1, dy);
    }
  }

  /** Multiplying both sides of `u <= v` by a non-negative `w`. */
  lemma MulMono(u: int, v: int, w: int)
    requires u <= v && 0 <= w
    ensures u * w <= v * w
  {
  }

  /** Multiplication commutes. */
  lemma MulComm(u: int, v: int)
    ensures u * v == v * u
  {
  }

  /** One more step adds one more `w` to the product. */
  lemma MulSucc(n: int, w: int)
    ensures (n + 1) * w == n * w + w
  {
  }

  /**
    The state of `line` at the top of an iteration, after `a` steps along x
    and `b` along y with `n` pixels plotted: `current` is `a` columns and `b`
    rows from `start` towards `end`, the accumulator is
    `(b + 1) * dx - (a + 1) * dy`, the error term `b * dx - a * dy` is in the
    band of the longer axis, and `n` counts the steps of the longer axis.
   */
  predicate Progress(start: Point, end: Point, current: Point, err: int, a: int, b: int, n: int) {
    var dx, dy := Abs(end.x - start.x), Abs(end.y - start.y);
    && Accumulator(dx, dy, err, a, b)
    && current.x == (if StepToward(start.x, end.x) == 1 then start.x + a else start.x - a)
    && current.y == (if StepToward(start.y, end.y) == 1 then start.y + b else start.y - b)
    && (dx > dy ==> n == a)
    && (dy > dx ==> n == b)
    && (dx == dy ==> n == a)
  }

  /**
    The arithmetic part of `Progress`: `a` of `dx` steps along x and `b` of
    `dy` along y, the accumulator `(b + 1) * dx - (a + 1) * dy`, the error
    term `b * dx - a * dy` in the band, and equal counts on a diagonal.
   */
  predicate Accumulator(dx: int, dy: int, err: int, a: int, b: int) {
    && 0 <= a <= dx && 0 <= b <= dy
    && err == (b + 1) * dx - (a + 1) * dy
    && InBand(b * dx - a * dy, dx, dy)
    && (dx == dy ==> a == b)
  }

  /**
    One update of the accumulator short of the end: the x count grows when
    `2 * err > -dy`, the y count when `2 * err < dx`, at least one grows,
    along the longer axis it always grows, and `Accumulator` still holds.
   */
  lemma AccumulatorStep(dx: int, dy: int, err: int, a: int, b: int, err': int, a': int, b': int)
    requires Accumulator(dx, dy, err, a, b)
    requires a != dx || b != dy
    requires err' == err - (if 2 * err > -dy then dy else 0) + (if 2 * err < dx then dx else 0)
    requires a' == a + (if 2 * err > -dy then 1 else 0)
    requires b' == b + (if 2 * err < dx then 1 else 0)
    ensures Accumulator(dx, dy, err', a', b')
    ensures a + b < a' + b'
    ensures dx >= dy ==> a' == a + 1
    ensures dy >= dx ==> b' == b + 1
  {
    var ady, bdx := a * dy, b * dx;
    MulSucc(a, dy);
    MulSucc(b, dx);
    assert err == bdx + dx - ady - dy;
    StepArithmetic(dx, dy, a, b, ady, bdx, err);
    var ady', bdx' := a' * dy, b' * dx;
    assert ady' == ady + (if 2 * err > -dy then dy else 0);
    assert bdx' == bdx + (if 2 * err < dx then dx else 0);
    MulSucc(a', dy);
    MulSucc(b', dx);
    AccumulatorLinear(dx, dy, err, a, b, ady, bdx, err', a', b', ady', bdx');
  }

  /**
    `AccumulatorStep` with the products `a * dy` and `b * dx` before and
    after the update given as plain numbers, so that only linear arithmetic
    is left: the accumulator and the band carry over to the new counts.
   */
  lemma AccumulatorLinear(dx: int, dy: int, err: int, a: int, b: int, ady: int, bdx: int,
                          err': int, a': int, b': int, ady': int, bdx': int)
    requires 0 <= a <= dx && 0 <= b <= dy
    requires err == bdx + dx - ady - dy
    requires InBand(bdx - ady, dx, dy)
    requires dx == dy ==> a == b && ady == bdx
    requires 2 * err > -dy ==> a < dx
    requires 2 * err < dx ==> b < dy
    requires 2 * err > -dy || 2 * err < dx
    requires err' == err - (if 2 * err > -dy then dy else 0) + (if 2 * err < dx then dx else 0)
    requires a' == a + (if 2 * err > -dy then 1 else 0)
    requires b' == b + (if 2 * err < dx then 1 else 0)
    requires ady' == ady + (if 2 * err > -dy then dy else 0)
    requires bdx' == bdx + (if 2 * err < dx then dx else 0)
    ensures 0 <= a' <= dx && 0 <= b' <= dy
    ensures err' == bdx' + dx - ady' - dy
    ensures InBand(bdx' - ady', dx, dy)
    ensures dx == dy ==> a' == b' && ady' == bdx'
    ensures dx >= dy ==> a' == a + 1
    ensures dy >= dx ==> b' == b + 1
  {
  }

  /** The pixel about to be plotted lies in the box and near the segment, and is `end` only after the last step. */
  lemma CurrentPixel(start: Point, end: Point, current: Point, err: int, a: int, b: int, n: int)
    requires Progress(start, end, current, err, a, b, n)
    ensures Within(current.x, start.x, end.x) && Within(current.y, start.y, end.y)
    ensures NearLine(current, start, end)
    ensures current == end ==> n == Max(Abs(end.x - start.x), Abs(end.y - start.y))
  {
  }

  /**
    Moving `current`, `a` columns and `b` rows from `start` towards `end`,
    one column when the count `a'` is one more than `a` and one row when
    `b'` is one more than `b`, with at least one of the two, is one step of
    `line` and keeps the counts in step with the position.
   */
  lemma CoordinateStep(start: Point, end: Point, current: Point, a: int, b: int, next: Point, a': int, b': int)
    requires current.x == (if StepToward(start.x, end.x) == 1 then start.x + a else start.x - a)
    requires current.y == (if StepToward(start.y, end.y) == 1 then start.y + b else start.y - b)
    requires a' == a || a' == a + 1
    requires b' == b || b' == b + 1
    requires a + b < a' + b'
    requires next.x == (if a' == a + 1 then current.x + StepToward(start.x, end.x) else current.x)
    requires next.y == (if b' == b + 1 then current.y + StepToward(start.y, end.y) else current.y)
    ensures next.x == (if StepToward(start.x, end.x) == 1 then start.x + a' else start.x - a')
    ensures next.y == (if StepToward(start.y, end.y) == 1 then start.y + b' else start.y - b')
    ensures IsStep(current, next, start, end)
  {
  }

  /**
    One iteration of `line` from a state that has not reached `end`, with
    the x step taken when `2 * err > -dy` and the y step when `2 * err < dx`,
    moves one step towards `end` and reaches the next state, one pixel on.
   */
  lemma StepProgress(start: Point, end: Point, current: Point, err: int, a: int, b: int, n: int,
                      next: Point, err': int, a': int, b': int, n': int)
    requires Progress(start, end, current, err, a, b, n)
    requires current != end
    requires var dx, dy := Abs(end.x - start.x), Abs(end.y - start.y);
             && next.x == (if 2 * err > -dy then current.x + StepToward(start.x, end.x) else current.x)
             && next.y == (if 2 * err < dx then current.y + StepToward(start.y, end.y) else current.y)
             && err' == err - (if 2 * err > -dy then dy else 0) + (if 2 * err < dx then dx else 0)
             && a' == a + (if 2 * err > -dy then 1 else 0)
             && b' == b + (if 2 * err < dx then 1 else 0)
    requires n' == n + 1
    ensures Progress(start, end, next, err', a', b', n')
    ensures IsStep(current, next, start, end)
    ensures a + b < a' + b'
  {
    var dx, dy := Abs(end.x - start.x), Abs(end.y - start.y);
    AccumulatorStep(dx, dy, err, a, b, err', a', b');
    CoordinateStep(start, end, current, a, b, next, a', b');
  }

  /**
    The pixels plotted so far by `line` while `current` is the next pixel to
    plot: none of them is `end`, all lie in the box of the endpoints and near
    the segment, the first is `start`, and each is one step from the next,
    `current` included.
   */
  predicate PathSoFar(path: seq<Point>, current: Point, start: Point, end: Point) {
    && (|path| == 0 ==> current == start)
    && (|path| > 0 ==> path[0] == start && IsStep(path[|path| - 1], current, start, end))
    && (forall k :: 0 <= k < |path| ==> path[k] != end)
    && (forall k :: 0 <= k < |path| - 1 ==> IsStep(path[k], path[k + 1], start, end))
    && (forall k :: 0 <= k < |path| ==> Within(path[k].x, start.x, end.x) && Within(path[k].y, start.y, end.y))
    && (forall k :: 0 <= k < |path| ==> NearLine(path[k], start, end))
  }

  /** Plotting `current`, which is not `end`, and stepping to `next` keeps `PathSoFar`. */
  lemma ExtendPath(path: seq<Point>, current: Point, next: Point, start: Point, end: Point)
    requires PathSoFar(path, current, start, end)
    requires current != end
    requires Within(current.x, start.x, end.x) && Within(current.y, start.y, end.y)
    requires NearLine(current, start, end)
    requires IsStep(current, next, start, end)
    ensures PathSoFar(path + [current], next, start, end)
  {
  }

  /** Plotting `end` as the pixel after a `PathSoFar` path of the right length completes a line. */
  lemma FinishPath(path: seq<Point>, current: Point, start: Point, end: Point)
    requires current == end
    requires PathSoFar(path, current, start, end)
    requires NearLine(current, start, end)
    requires |path| == Max(Abs(end.x - start.x), Abs(end.y - start.y))
    ensures IsLinePath(path + [current], start, end)
  {
  }

  /**
    The body of one iteration of `line` after the pixel is plotted: step x
    and take `dy` off the accumulator when `2 * err > -dy`, then step y and
    add `dx` when `2 * err < dx`, both tests on the accumulator's old value.
    Each coordinate moves by 0 or its unit step, at least one moves unless
    the segment is a single pixel, and the accumulator falls by `dy` per
    column and rises by `dx` per row moved.
   */
  method Advance(current: Point, err: int, dx: int, dy: int, sx: int, sy: int) returns (next: Point, err': int)
    ensures next.x == (if 2 * err > -dy then current.x + sx else current.x)
    ensures next.y == (if 2 * err < dx then current.y + sy else current.y)
    ensures err' == err - (if 2 * err > -dy then dy else 0) + (if 2 * err < dx then dx else 0)
    ensures next.x - current.x in {0, sx} && next.y - current.y in {0, sy}
    ensures 0 <= dx && 0 <= dy && 0 < dx + dy && sx != 0 && sy != 0 ==> next != current
    ensures sx in {1, -1} && sy in {1, -1} ==>
              err' == err - dy * ((next.x - current.x) * sx) + dx * ((next.y - current.y) * sy)
  {
    next, err' := current, err;
    var e2 := 2 * err;
    if e2 > -dy {
      err' := err' - dy;
      next := next.(x := next.x + sx);
    }
    if e2 < dx {
      err' := err' + dx;
      next := next.(y := next.y + sy);
    }
  }

  /**
    One iteration of `line`'s loop: plot `current`; stop if it is `end`,
    otherwise take the next step. `path` and the frame grow by that pixel,
    and a finished loop leaves a complete line behind.
   */
  method Iteration(start: Point, end: Point, screen: seq<Byte>, frame: seq<Byte>, path: seq<Point>,
                   current: Point, err: int, ghost a: int, ghost b: int)
    returns (done: bool, frame': seq<Byte>, path': seq<Point>, next: Point, err': int, ghost a': int, ghost b': int)
    requires ScreenLen <= |screen|
    requires Progress(start, end, current, err, a, b, |path|)
    requires PathSoFar(path, current, start, end)
    requires frame == PlotAll(screen, path, LineColor)
    ensures frame' == PlotAll(screen, path', LineColor)
    ensures done ==> IsLinePath(path', start, end)
    ensures !done ==> Progress(start, end, next, err', a', b', |path'|)
    ensures !done ==> PathSoFar(path', next, start, end)
    ensures !done ==> a + b < a' + b'
  {
    var dx: int, dy: int := Abs(end.x - start.x), Abs(end.y - start.y);
    var sx, sy := StepToward(start.x, end.x), StepToward(start.y, end.y);
    PlotAllSnoc(screen, path, current, LineColor);
    frame' := SetPixel(current, LineColor, frame);
    CurrentPixel(start, end, current, err, a, b, |path|);
    path' := path + [current];
    if current == end {
      FinishPath(path, current, start, end);
      done, next, err', a', b' := true, current, err, a, b;
      return;
    }
    done := false;
    next, err' := Advance(current, err, dx, dy, sx, sy);
    a', b' := a + (if 2 * err > -dy then 1 else 0), b + (if 2 * err < dx then 1 else 0);
    StepProgress(start, end, current, err, a, b, |path|, next, err', a', b', |path'|);
    ExtendPath(path, current, next, start, end);
  }

  /**
    `line`: Bresenham's algorithm for all octants with error accumulator
    `err = dx - dy`. Each iteration plots the current pixel, stops if it is
    `end`, and otherwise steps x when `2*err > -dy` and y when `2*err < dx`.
    Returns the frame and the pixels plotted, in order.
   */
  method Line(start: Point, end: Point, screen: seq<Byte>) returns (screen': seq<Byte>, path: seq<Point>)
    requires ScreenLen <= |screen|
    ensures IsLinePath(path, start, end)
    ensures start == end ==> path == [start]
    ensures screen' == PlotAll(screen, path, LineColor)
  {
    var current := start;
    var dx: int, dy: int := Abs(end.x - start.x), Abs(end.y - start.y);
    var err := dx - dy;
    // a and b count the steps taken along x and y.
    ghost var a, b := 0, 0;
    screen', path := screen, [];
    while true
      invariant Progress(start, end, current, err, a, b, |path|)
      invariant PathSoFar(path, current, start, end)
      invariant screen' == PlotAll(screen, path, LineColor)
      decreases (dx - a) + (dy - b)
    {
      var done;
      done, screen', path, current, err, a, b := Iteration(start, end, screen, screen', path, current, err, a, b);
      if done {
        break;
      }
    }
  }
}
