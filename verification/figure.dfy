/**
  The figure of src/lib.rs: an ordered sequence of vertices read as a closed
  polygon, its outline drawing, and the scale and rotate transforms, both of
  which pivot about the origin.
 */
module Figures {
  import opened Algebra
  import opened Raster

  /** A closed polygon: the last vertex joins back to the first. */
  datatype Figure = Figure(vertices: seq<Vertex>)

  /** An edge handed to `line`, from its start pixel to its end pixel. */
  datatype Edge = Edge(from: Point, to: Point)

  /** `Figure::new` keeps the vertex list exactly as given. */
  function New(vertices: seq<Vertex>): (f: Figure)
    ensures f.vertices == vertices
  {
    Figure(vertices)
  }

  /** Every vertex multiplied by `m`, in place and in order, as the loops of `scale` and `rotate` do. */
  function MulEach(vs: seq<Vertex>, m: Matrix): (ws: seq<Vertex>)
    ensures |ws| == |vs|
    ensures forall i :: 0 <= i < |vs| ==> ws[i] == Mul(vs[i], m)
  {
    if vs == [] then [] else [Mul(vs[0], m)] + MulEach(vs[1..], m)
  }

  /** `scale(sx, sy)`: every vertex (x, y) becomes (x * sx, y * sy), about the origin, keeping count and order. */
  function Scale(f: Figure, sx: real, sy: real): (g: Figure)
    ensures |g.vertices| == |f.vertices|
    ensures forall i :: 0 <= i < |f.vertices| ==>
              g.vertices[i] == Vertex(f.vertices[i].x * sx, f.vertices[i].y * sy)
  {
    Figure(MulEach(f.vertices, ScaleMatrix(sx, sy)))
  }

  /**
    `rotate`, given c and s for the cosine and sine of the angle in radians:
    every vertex (x, y) becomes (c*x - s*y, s*x + c*y), about the origin,
    keeping count and order.
   */
  function Rotate(f: Figure, c: real, s: real): (g: Figure)
    ensures |g.vertices| == |f.vertices|
    ensures forall i :: 0 <= i < |f.vertices| ==>
              g.vertices[i] == Vertex(c * f.vertices[i].x - s * f.vertices[i].y,
                                      s * f.vertices[i].x + c * f.vertices[i].y)
  {
    Figure(MulEach(f.vertices, RotationMatrix(c, s)))
  }

  /** `scale(1, 1)` changes nothing. */
  lemma ScaleIdentity(f: Figure)
    ensures Scale(f, 1.0, 1.0) == f
  {
  }

  /** Two scalings in a row are one scaling by the products of the factors. */
  lemma ScaleCompose(f: Figure, sx: real, sy: real, tx: real, ty: real)
    ensures Scale(Scale(f, sx, sy), tx, ty) == Scale(f, sx * tx, sy * ty)
  {
    var g, h := Scale(Scale(f, sx, sy), tx, ty), Scale(f, sx * tx, sy * ty);
    forall i | 0 <= i < |f.vertices|
      ensures g.vertices[i] == h.vertices[i]
    {
      var v := f.vertices[i];
      assert g.vertices[i] == Vertex(v.x * sx * tx, v.y * sy * ty);
      assert h.vertices[i] == Vertex(v.x * (sx * tx), v.y * (sy * ty));
      assert v.x * sx * tx == v.x * (sx * tx);
      assert v.y * sy * ty == v.y * (sy * ty);
    }
    assert g.vertices == h.vertices;
  }

  /** Scaling by non-zero factors is undone by scaling by their reciprocals. */
  lemma ScaleInverse(f: Figure, sx: real, sy: real)
    requires sx != 0.0 && sy != 0.0
    ensures Scale(Scale(f, sx, sy), 1.0 / sx, 1.0 / sy) == f
  {
    var ix, iy := 1.0 / sx, 1.0 / sy;
    ScaleCompose(f, sx, sy, ix, iy);
    assert sx * ix == 1.0 && sy * iy == 1.0;
    ScaleIdentity(f);
  }

  /** `rotate` with cosine 1 and sine 0 (the angle 0) changes nothing. */
  lemma RotateIdentity(f: Figure)
    ensures Rotate(f, 1.0, 0.0) == f
  {
  }

  /** With c*c + s*s == 1, `rotate` keeps every vertex's squared distance from the origin. */
  lemma RotatePreservesNorm(f: Figure, c: real, s: real)
    requires c * c + s * s == 1.0
    ensures forall i :: 0 <= i < |f.vertices| ==>
              NormSq(Rotate(f, c, s).vertices[i]) == NormSq(f.vertices[i])
  {
    forall i | 0 <= i < |f.vertices|
      ensures NormSq(Rotate(f, c, s).vertices[i]) == NormSq(f.vertices[i])
    {
      RotationKeepsNorm(f.vertices[i], c, s);
    }
  }

  /** The per-vertex form of `RotateCompose`. */
  lemma RotateVertexCompose(v: Vertex, c1: real, s1: real, c2: real, s2: real)
    ensures Mul(Mul(v, RotationMatrix(c1, s1)), RotationMatrix(c2, s2))
         == Mul(v, RotationMatrix(c1 * c2 - s1 * s2, s1 * c2 + c1 * s2))
  {
  }

  /**
    Rotating by (c1, s1) and then by (c2, s2) is rotating once by the angle
    sum, whose cosine and sine are c1*c2 - s1*s2 and s1*c2 + c1*s2.
   */
  lemma RotateCompose(f: Figure, c1: real, s1: real, c2: real, s2: real)
    ensures Rotate(Rotate(f, c1, s1), c2, s2) == Rotate(f, c1 * c2 - s1 * s2, s1 * c2 + c1 * s2)
  {
    var r1, r2 := RotationMatrix(c1, s1), RotationMatrix(c2, s2);
    var r := RotationMatrix(c1 * c2 - s1 * s2, s1 * c2 + c1 * s2);
    var g := MulEach(MulEach(f.vertices, r1), r2);
    var h := MulEach(f.vertices, r);
    forall i | 0 <= i < |f.vertices|
      ensures g[i] == h[i]
    {
      RotateVertexCompose(f.vertices[i], c1, s1, c2, s2);
    }
    assert g == h;
  }

  /** With c*c + s*s == 1, rotating by (c, -s), the opposite angle, undoes rotating by (c, s). */
  lemma RotateInverse(f: Figure, c: real, s: real)
    requires c * c + s * s == 1.0
    ensures Rotate(Rotate(f, c, s), c, -s) == f
  {
    var ns := -s;
    RotateCompose(f, c, s, c, ns);
    assert c * c - s * ns == 1.0 && s * c + c * ns == 0.0;
    RotateIdentity(f);
  }

  /** A vertex at the origin stays there under `scale` and `rotate`: both pivot about the origin. */
  lemma TransformsPivotAtOrigin(f: Figure, i: int, sx: real, sy: real, c: real, s: real)
    requires 0 <= i < |f.vertices| && f.vertices[i] == Vertex(0.0, 0.0)
    ensures Scale(f, sx, sy).vertices[i] == Vertex(0.0, 0.0)
    ensures Rotate(f, c, s).vertices[i] == Vertex(0.0, 0.0)
  {
  }

  /**
    The square the program starts from, scaled by 2 about the origin: every
    coordinate doubles, so the square moves away from the origin as well as
    growing, instead of growing about its own centre (150, 150).
   */
  lemma ScaleSquareAboutOrigin()
    ensures Scale(New([Vertex(100.0, 100.0), Vertex(100.0, 200.0), Vertex(200.0, 200.0), Vertex(200.0, 100.0)]), 2.0, 2.0)
         == Figure([Vertex(200.0, 200.0), Vertex(200.0, 400.0), Vertex(400.0, 400.0), Vertex(400.0, 200.0)])
  {
  }

  /** Both coordinates of the vertex are whole numbers, so it names a pixel exactly. */
  predicate Integral(v: Vertex) {
    v.x == v.x.Floor as real && v.y == v.y.Floor as real
  }

  /** The pixel an integral vertex names. */
  function ToPoint(v: Vertex): (p: Point)
    requires Integral(v)
    ensures p.x as real == v.x && p.y as real == v.y
  {
    Point(v.x.Floor, v.y.Floor)
  }

  /** The edge `draw` hands to `line` at loop index i, 1 <= i <= n: the closing edge when i == n. */
  function EdgeCall(ps: seq<Point>, i: int): Edge
    requires 1 <= i <= |ps|
  {
    if i == |ps| then Edge(ps[0], ps[i - 1]) else Edge(ps[i - 1], ps[i])
  }

  /**
    The edges of a closed polygon in the order `draw` visits them: one per
    vertex, (p[i-1], p[i]) for 1 <= i < n and then (p[0], p[n-1]).
   */
  function Outline(ps: seq<Point>): (es: seq<Edge>)
    ensures |es| == |ps|
    ensures forall i :: 1 <= i < |ps| ==> es[i - 1] == Edge(ps[i - 1], ps[i])
    ensures |ps| > 0 ==> es[|ps| - 1] == Edge(ps[0], ps[|ps| - 1])
  {
    seq(|ps|, k requires 0 <= k < |ps| => EdgeCall(ps, k + 1))
  }

  /** All the paths, joined in order. */
  function Concat(paths: seq<seq<Point>>): seq<Point>
    decreases |paths|
  {
    if paths == [] then [] else Concat(paths[..|paths| - 1]) + paths[|paths| - 1]
  }

  /** A pixel of one of the paths is a pixel of their concatenation. */
  lemma {:induction false} ConcatHas(paths: seq<seq<Point>>, k: int, p: Point)
    requires 0 <= k < |paths| && p in paths[k]
    ensures p in Concat(paths)
    decreases |paths|
  {
    if k < |paths| - 1 {
      ConcatHas(paths[..|paths| - 1], k, p);
    }
  }

  /**
    Plotting one line path per outline edge lights every on-frame vertex:
    vertex i starts edge i, except the last, which ends the closing edge.
   */
  lemma OutlineLightsVertices(screen: seq<Byte>, ps: seq<Point>, paths: seq<seq<Point>>)
    requires ScreenLen <= |screen|
    requires |paths| == |ps|
    requires forall k :: 0 <= k < |ps| ==> IsLinePath(paths[k], Outline(ps)[k].from, Outline(ps)[k].to)
    ensures forall i :: 0 <= i < |ps| && InBounds(ps[i]) ==> Painted(PlotAll(screen, Concat(paths), LineColor), ps[i], LineColor)
  {
    var n := |ps|;
    forall i | 0 <= i < n && InBounds(ps[i])
      ensures Painted(PlotAll(screen, Concat(paths), LineColor), ps[i], LineColor)
    {
      if i < n - 1 {
        assert paths[i][0] == ps[i];
      } else {
        assert paths[i][|paths[i]| - 1] == ps[i];
      }
      ConcatHas(paths, i, ps[i]);
      PlotAllPaints(screen, Concat(paths), LineColor, ps[i]);
    }
  }

  /**
    The loop of `draw` over the outline edges in order: one `line` call per
    edge. Returns the frame and the pixels each call plotted.
   */
  method DrawEdges(edges: seq<Edge>, screen: seq<Byte>) returns (screen': seq<Byte>, paths: seq<seq<Point>>)
    requires ScreenLen <= |screen|
    ensures |paths| == |edges|
    ensures forall k :: 0 <= k < |edges| ==> IsLinePath(paths[k], edges[k].from, edges[k].to)
    ensures screen' == PlotAll(screen, Concat(paths), LineColor)
  {
    screen', paths := screen, [];
    var i := 0;
    while i < |edges|
      invariant 0 <= i <= |edges| && |paths| == i
      invariant forall k :: 0 <= k < i ==> IsLinePath(paths[k], edges[k].from, edges[k].to)
      invariant screen' == PlotAll(screen, Concat(paths), LineColor)
    {
      var next, path := Line(edges[i].from, edges[i].to, screen');
      PlotAllAppend(screen, Concat(paths), path, LineColor);
      assert (paths + [path])[..|paths|] == paths;
      screen', paths := next, paths + [path];
      i := i + 1;
    }
  }

  /** The pixel containing a vertex: both coordinates rounded down. */
  function Snap(v: Vertex): (p: Point)
    ensures p.x as real <= v.x < p.x as real + 1.0
    ensures p.y as real <= v.y < p.y as real + 1.0
  {
    Point(v.x.Floor, v.y.Floor)
  }

  /** On an integral vertex, rounding down names the same pixel the vertex does. */
  lemma SnapIntegral(v: Vertex)
    requires Integral(v)
    ensures Snap(v) == ToPoint(v)
  {
  }

  /** The pixels containing a list of vertices, in order. */
  function SnapAll(vs: seq<Vertex>): (ps: seq<Point>)
    ensures |ps| == |vs|
    ensures forall i :: 0 <= i < |vs| ==> ps[i] == Snap(vs[i])
  {
    seq(|vs|, i requires 0 <= i < |vs| => Snap(vs[i]))
  }

  /**
    `draw` with every vertex first rounded down to the pixel containing it,
    so that each `line` call runs between whole pixels and terminates for
    any figure: the edges are those of `draw`, each drawn as the line path
    between the rounded endpoints, and every on-frame rounded vertex ends
    up painted.
   */
  method DrawSnapped(f: Figure, screen: seq<Byte>) returns (screen': seq<Byte>, edges: seq<Edge>, paths: seq<seq<Point>>)
    requires ScreenLen <= |screen|
    ensures |edges| == |f.vertices| && |paths| == |edges|
    ensures forall i :: 1 <= i < |f.vertices| ==>
              edges[i - 1] == Edge(Snap(f.vertices[i - 1]), Snap(f.vertices[i]))
    ensures |f.vertices| > 0 ==>
              edges[|f.vertices| - 1] == Edge(Snap(f.vertices[0]), Snap(f.vertices[|f.vertices| - 1]))
    ensures forall k :: 0 <= k < |edges| ==> IsLinePath(paths[k], edges[k].from, edges[k].to)
    ensures screen' == PlotAll(screen, Concat(paths), LineColor)
    ensures |f.vertices| == 0 ==> screen' == screen
    ensures forall i :: 0 <= i < |f.vertices| && InBounds(Snap(f.vertices[i])) ==>
              Painted(screen', Snap(f.vertices[i]), LineColor)
  {
    var ps := SnapAll(f.vertices);
    edges := Outline(ps);
    screen', paths := DrawEdges(edges, screen);
    OutlineLightsVertices(screen, ps, paths);
  }

  /**
    `draw`: for i from 1 to n, draw the edge (v[i-1], v[i]) and, at i == n,
    the closing edge (v[0], v[n-1]), so a figure of n vertices issues exactly
    n calls of `line` and an empty one issues none. Returns the frame, the
    edges in call order, and the pixels each call plotted.
   */
  method Draw(f: Figure, screen: seq<Byte>) returns (screen': seq<Byte>, edges: seq<Edge>, paths: seq<seq<Point>>)
    requires ScreenLen <= |screen|
    requires forall i :: 0 <= i < |f.vertices| ==> Integral(f.vertices[i])
    ensures |edges| == |f.vertices| && |paths| == |edges|
    ensures forall i :: 1 <= i < |f.vertices| ==>
              edges[i - 1] == Edge(ToPoint(f.vertices[i - 1]), ToPoint(f.vertices[i]))
    ensures |f.vertices| > 0 ==>
              edges[|f.vertices| - 1] == Edge(ToPoint(f.vertices[0]), ToPoint(f.vertices[|f.vertices| - 1]))
    ensures forall k :: 0 <= k < |edges| ==> IsLinePath(paths[k], edges[k].from, edges[k].to)
    ensures screen' == PlotAll(screen, Concat(paths), LineColor)
    ensures |f.vertices| == 0 ==> screen' == screen
    ensures forall i :: 0 <= i < |f.vertices| && InBounds(ToPoint(f.vertices[i])) ==>
              Painted(screen', ToPoint(f.vertices[i]), LineColor)
  {
    screen', edges, paths := DrawSnapped(f, screen);
    forall i | 0 <= i < |f.vertices|
      ensures Snap(f.vertices[i]) == ToPoint(f.vertices[i])
    {
      SnapIntegral(f.vertices[i]);
    }
  }
}
