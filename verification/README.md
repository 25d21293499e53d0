# transform2d in Dafny

A Dafny model of the library part of transform2d (`src/lib.rs`): a polygon
("figure") held as an ordered list of 2D vertices, transformed by 2x2
matrices, and drawn as a red outline into an 800 x 600 RGBA frame buffer with
Bresenham's line algorithm.

The project has three modules, one per part of the library:

- `Algebra` (`algebra.dfy`): `Vertex`, `Matrix` and the `vertex * matrix`
  product, where result component j is the sum over i of `v[i] * m[j][i]`
  (the matrix applied to the vertex as a column vector). Coordinates are
  `real`.
- `Raster` (`raster.dfy`): the frame constants `WIDTH = 800`, `HEIGHT = 600`,
  `Color`, the clipped pixel write `SetPixel`, and the all-octant Bresenham
  `Line` over integer pixel positions. The frame is a `seq<Byte>` of four
  bytes per pixel, row-major. `PlotAll` is the frame after a sequence of
  pixel writes.
- `Figures` (`figure.dfy`): `Figure`, `New`, `Scale`, `Rotate` and `Draw`.
  The source's line loop ends only when an edge's endpoints differ by a
  whole number on both axes. `Draw` requires every vertex to have
  whole-number coordinates, which is stronger than that. `DrawSnapped`
  first rounds every vertex down to the pixel containing it, and so draws
  any figure; `Draw` is `DrawSnapped` on vertices that need no rounding.

`Line` is written as the source's loop, with the loop body in `Iteration`.
Each iteration plots the current pixel, stops when that pixel is `end`, and
otherwise steps x when `2*err > -dy` and y when `2*err < dx`. The proof
keeps ghost step counters `a` and `b` and the identity
`err == (b+1)*dx - (a+1)*dy`. From these it shows that neither coordinate
overshoots `end`, that some coordinate moves in each iteration, and so that
the loop terminates (`decreases (dx - a) + (dy - b)`). It also shows that
exactly `max(|dx|, |dy|) + 1` pixels are plotted, each within half a pixel
of the exact segment. `LinePathUnique` shows that these properties fix the
path completely, so `IsLinePath` names the one path the loop plots. `Line`
and `Draw` return the pixels plotted and the edges drawn as extra results,
so that their contracts can say which `set_pixel` and `line` calls happened.

Two more modules model the drawing code as written, on the real
coordinates it is actually handed (see Findings):

- `LineAsWritten` (`line_as_written.dfy`) runs the loop of `line`. It shows
  that the loop never ends when an edge's endpoints differ by a fraction.
- `SetPixelAsWritten` (`set_pixel_as_written.dfy`) computes the byte index
  of `set_pixel`. It shows that a fractional position on the last row can
  pass the bounds test and still index past the end of the frame.

Facts about the library that the model keeps:

- `scale` and `rotate` multiply every vertex by a matrix, so both pivot
  about the origin.
- `rotate` passes its argument straight to `cos` and `sin`, so the angle is
  in radians.
- The matrices are 2x2 over `[x, y]`.
- The line colour is fixed to opaque red (255, 0, 0, 255).

## Model

| member | source | states |
|---|---|---|
| Algebra.Mul | src/lib.rs:33-47 | the product's x is `m00*x + m01*y` and its y is `m10*x + m11*y`: the matrix rows give the output components |
| Algebra.MulFixesOrigin | src/lib.rs:36-46 | every matrix maps the origin to the origin, so transforms built on the product pivot about the origin |
| Algebra.RotationKeepsNorm | src/lib.rs:122 | multiplying by `[[c, -s], [s, c]]` with `c*c + s*s == 1` keeps a vertex's squared distance from the origin |
| Raster.SetPixel | src/lib.rs:99-111 | off-frame positions leave the buffer unchanged; on-frame ones write red, green, blue, alpha at `4*(y*WIDTH+x)` to `+3`, which lie below `WIDTH*HEIGHT*4`; every other byte is unchanged; the length is kept |
| Raster.PixelIndexRoundTrip | src/lib.rs:105 | the pixel index of an on-frame pixel lies in the frame, and row and column are recovered from it |
| Raster.PixelAtCovers | src/lib.rs:105 | each byte of the frame belongs to exactly one on-frame pixel |
| Raster.DistinctPixelsDisjoint | src/lib.rs:105-109 | two different on-frame pixels never share a byte, so one pixel write cannot disturb another pixel |
| Raster.PlotAllAppend | src/lib.rs:79 | plotting two pixel sequences one after the other equals plotting their concatenation |
| Raster.PlotAllFrame | src/lib.rs:99-111 | a byte covered by no on-frame pixel of the plotted sequence keeps its value |
| Raster.PlotAllPaints | src/lib.rs:105-109 | every on-frame pixel of the plotted sequence ends up holding the colour in all four bytes |
| Raster.AccumulatorStep | src/lib.rs:85-95 | one update of the accumulator short of `end` keeps it at `(b+1)*dx - (a+1)*dy` with the error term `b*dx - a*dy` inside the half-open band of the longer axis; the longer axis always steps and at least one axis does |
| Raster.StepProgress | src/lib.rs:78-95 | an iteration that does not stop moves one step towards `end` and keeps the loop state: position `a` columns and `b` rows from `start`, accumulator identity, band, and pixel count equal to the steps along the longer axis |
| Raster.Iteration | src/lib.rs:78-95 | one pass of the loop plots the current pixel into the frame; if it is `end` the pixels so far form the line path; otherwise the state advances and `a + b` grows |
| Raster.LinePathUnique | src/lib.rs:69-97 | two pixel sequences that both meet `IsLinePath` between the same endpoints are equal, so the contract of `Line` fixes every pixel it plots |
| Raster.ShallowLinePlotted | src/lib.rs:69-97 | from (0,0) to (4,2) the pixels the loop plots, (0,0) (1,0) (2,1) (3,1) (4,2), form a line path |
| Raster.ShallowStaircaseRejected | src/lib.rs:69-97 | the staircase (0,0) (1,1) (2,2) (3,2) (4,2) is not a line path from (0,0) to (4,2): it strays half a pixel from the segment at (1,1) |
| Raster.Advance | src/lib.rs:85-95 | each coordinate moves by 0 or its unit step; unless the segment is a single pixel at least one moves; the accumulator falls by `dy` for each column moved and rises by `dx` for each row |
| Raster.StepArithmetic | src/lib.rs:85-95 | with the accumulator at `(b+1)*dx - (a+1)*dy` and `end` not reached, an x step happens only while x is short of `end`, a y step only while y is, and at least one happens |
| Raster.Line | src/lib.rs:69-97 | the first pixel plotted is `start`; the last is `end`, and no earlier one is; each iteration moves x by 0 or the step towards `end` and y likewise, and moves at least one; no pixel leaves the box of the endpoints; `max(|dx|,|dy|)+1` pixels are plotted; each pixel's error `|y-y0|*dx - |x-x0|*dy` lies in the half-open half-pixel band of the longer axis, with ties broken as the loop breaks them, which with the rest admits only one path; `start == end` plots exactly one; the frame is the result of those writes in order |
| Figures.New | src/lib.rs:55-57 | the figure holds exactly the given vertices, in order |
| Figures.Scale | src/lib.rs:113-119 | each vertex `(x, y)` becomes `(x*sx, y*sy)`; count and order are kept |
| Figures.Rotate | src/lib.rs:121-127 | each vertex `(x, y)` becomes `(c*x - s*y, s*x + c*y)`; count and order are kept |
| Figures.ScaleIdentity | src/lib.rs:113-119 | `scale(1, 1)` leaves the figure unchanged |
| Figures.ScaleCompose | src/lib.rs:113-119 | two scalings equal one scaling by the products of the factors |
| Figures.ScaleInverse | src/lib.rs:113-119 | scaling by non-zero factors is undone by scaling by their reciprocals |
| Figures.RotateIdentity | src/lib.rs:121-127 | rotating with `c = 1, s = 0` leaves the figure unchanged |
| Figures.RotatePreservesNorm | src/lib.rs:121-127 | with `c*c + s*s == 1`, every vertex keeps its squared distance from the origin |
| Figures.RotateCompose | src/lib.rs:121-127 | two rotations equal one rotation by the sum angle (cosine `c1*c2 - s1*s2`, sine `s1*c2 + c1*s2`) |
| Figures.RotateInverse | src/lib.rs:121-127 | with `c*c + s*s == 1`, rotating by `(c, -s)` undoes rotating by `(c, s)` |
| Figures.TransformsPivotAtOrigin | src/lib.rs:113-127 | a vertex at the origin stays at the origin under both `scale` and `rotate` |
| Figures.ScaleSquareAboutOrigin | src/lib.rs:113-119 | the square (100,100) (100,200) (200,200) (200,100) scaled by 2 becomes (200,200) (200,400) (400,400) (400,200): it moves as well as grows |
| Figures.Outline | src/lib.rs:59-67 | a polygon of n points has n edges, `(p[i-1], p[i])` for `1 <= i < n` and then the closing edge `(p[0], p[n-1])`; none for n = 0 |
| Figures.OutlineLightsVertices | src/lib.rs:59-67 | drawing one line per outline edge paints every on-frame vertex |
| Figures.DrawEdges | src/lib.rs:60-66 | one `line` call per edge, in order, each plotting the unique line path (`IsLinePath`) between that edge's endpoints; the frame is the result of all their writes in order |
| Figures.DrawSnapped | src/lib.rs:59-67 | for any figure: the same n edges as `draw`, between the pixels containing the vertices; each plots the unique line path between them; the frame is the result of all those writes in order; nothing is drawn for an empty figure; every on-frame vertex pixel ends up painted |
| Figures.Draw | src/lib.rs:59-67 | exactly n `line` calls: `(v[i-1], v[i])` for `1 <= i < n`, then `(v[0], v[n-1])`; each plots the unique line path (`IsLinePath`) between its edge's endpoints; the frame is the result of all those writes in order; nothing is drawn for an empty figure; every on-frame vertex ends up painted |
| LineAsWritten.Begin | src/lib.rs:70-76 | the loop starts at `start`, zero steps from it on both axes, with `err = dx - dy`, between `-dy` and `dx` |
| LineAsWritten.Advance | src/lib.rs:85-95 | one pass of the loop body over real coordinates moves each coordinate by 0 or by the unit step towards `end` |
| LineAsWritten.OffsetStaysWhole | src/lib.rs:69-95 | after any number of passes, `current - start` is a whole number on both axes |
| LineAsWritten.NeverStops | src/lib.rs:78-83 | if `end - start` is not whole on some axis, the stop test `current == end` fails after every number of passes |
| LineAsWritten.HalfPixelEdgeNeverStops | src/lib.rs:78-83 | the edge from (0, 0) to (0.5, 0) never meets its stop test |
| LineAsWritten.SharedFractionStops | src/lib.rs:78-95 | the edge from (0.5, 0) to (2.5, 0) reaches `end` after two passes, so non-whole endpoints with a whole difference do stop |
| SetPixelAsWritten.CastIndex | src/lib.rs:105 | the index is a non-negative multiple of four whose quarter is `y * WIDTH + x` rounded down |
| SetPixelAsWritten.CastIndexInFrame | src/lib.rs:100-109 | for a position that passes the bounds test, all four written bytes lie in the frame exactly when `y * WIDTH + x < WIDTH * HEIGHT` |
| SetPixelAsWritten.CornerIndexPastFrame | src/lib.rs:100-106 | (799.5, 599.5) passes the bounds test, but its index 1921596 lies past the 1920000-byte frame |
| SetPixelAsWritten.SnapStaysInFrame | src/lib.rs:100-109 | rounding a position that passes the bounds test down to its pixel gives an on-frame pixel whose four bytes lie in the frame; on whole-number positions its index is the source's index |

## Left out

- `src/main.rs` is not part of this model: window creation, the event loop and input polling through external crates.
- f32 arithmetic: rounding, NaN and infinities are not modelled; coordinates are `real` for the transforms and `int` for drawing.
- `cos` and `sin` are not evaluated; `Rotate` takes the cosine `c` and sine `s` of the angle as parameters.
- Figures.Draw: requires every vertex to have whole-number coordinates. The loop can run forever when an edge's endpoint coordinates differ by a non-whole amount (`LineAsWritten.NeverStops`). The requirement also excludes endpoints that share a fractional part: those stop (`LineAsWritten.SharedFractionStops`), but then reach the truncating cast.
- Figures.Draw: the truncating `as usize` cast of the pixel index is not part of `Draw`. With whole-number coordinates it changes nothing. With fractional ones it writes from byte `4 * floor(y*800 + x)` rather than at the pixel `(floor x, floor y)`, and on the last row that index can lie past the frame so that the write panics. `SetPixelAsWritten` models the cast.
- LineAsWritten: models termination only; it plots nothing, and f32 rounding of `current += step` is not modelled.
- Raster.SetPixel: requires the buffer to hold at least `WIDTH*HEIGHT*4` bytes. The source accepts any slice and panics on an on-frame pixel past its end.
- `Color::new` and `Vertex::new` are the datatype constructors `Color(...)` and `Vertex(...)`.

## Findings

| source | as written | input that shows it | evidently intended | confidence | as-written member | corrected member |
|---|---|---|---|---|---|---|
| src/lib.rs:81 | `line` stops only when `current` equals `end` exactly, and every pass moves `current` by 0 or a unit step per axis, so `current - start` stays whole | the library call `Figure::new(vec![Vertex::new(0., 0.), Vertex::new(0.5, 0.)]).draw(frame)` never returns. The `rotate(45.)` square of src/main.rs:34-35 would hang the same way, but only if that program built: it prints the figure with `{:#?}` and `Figure` derives no `Debug` | each edge is drawn between the pixels containing its endpoints, and `draw` returns | not executed; high for the real-number model, f32 rounding not modelled | LineAsWritten.NeverStops | Figures.DrawSnapped |
| src/lib.rs:105-106 | the bounds test admits `x < 800` and `y < 600`, but the index is `4 * (y*800 + x)` truncated, which for a fractional position on the last row reaches past the frame | `Figure::new(vec![Vertex::new(799.5, 599.5)]).draw(frame)` plots that vertex once, at index 1921596 of a 1920000-byte frame, and panics | a position that passes the bounds test writes inside the frame | not executed; high | SetPixelAsWritten.CornerIndexPastFrame | Figures.DrawSnapped |
