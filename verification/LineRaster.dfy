/** Line drawing into a YUV 4:2:0 frame (show.c): four octant loops with an integer error term, against the
    points nearest to the ideal line. */
module LineRaster {

  datatype Point = Point(x: int, y: int)
  datatype Color = Color(y: bv8, u: bv8, v: bv8)

  // ---- the ideal line ----

  /** For a line that goes major steps along one axis and minor <= major along the other: how far along the
      minor axis the i-th point lies, rounded to nearest, a tie going towards the start. */
  function Minor(major: int, minor: int, i: int): int
    requires major > 0
  {
    (2 * minor * i + major - 1) / (2 * major)
  }

  /** k is that rounding: the ideal position minor * i / major lies in (k - 1/2, k + 1/2]. */
  predicate Nearest(major: int, minor: int, i: int, k: int) {
    major * (2 * k - 1) < 2 * minor * i <= major * (2 * k + 1)
  }

  lemma FloorBounds(a: int, b: int, k: int)
    requires b > 0 && k == a / b
    ensures b * k <= a < b * (k + 1)
  {
  }

  lemma MinorIsNearest(major: int, minor: int, i: int)
    requires major > 0
    ensures Nearest(major, minor, i, Minor(major, minor, i))
  {
    var k := Minor(major, minor, i);
    FloorBounds(2 * minor * i + major - 1, 2 * major, k);
    assert (2 * major) * k == major * (2 * k) && (2 * major) * (k + 1) == major * (2 * k) + 2 * major;
    assert major * (2 * k - 1) == major * (2 * k) - major && major * (2 * k + 1) == major * (2 * k) + major;
  }

  /** The rounding is unique, so the error term's decisions have one correct outcome. */
  lemma NearestUnique(major: int, minor: int, i: int, k: int, m: int)
    requires major > 0 && Nearest(major, minor, i, k) && Nearest(major, minor, i, m)
    ensures k == m
  {
    if k < m {
      Scaled(major, 2 * k + 1, 2 * m - 1);
    } else if m < k {
      Scaled(major, 2 * m + 1, 2 * k - 1);
    }
  }

  lemma Scaled(d: int, a: int, b: int)
    requires d > 0 && a <= b
    ensures d * a <= d * b
  {
  }

  /** The error term before step i + 1, when the rounding so far is k: its sign compares the ideal position at
      i + 1 with k + 1/2. */
  function ErrorTerm(major: int, minor: int, i: int, k: int): int {
    2 * minor * (i + 1) - 2 * major * k - major
  }

  /** One turn of an octant loop: the sign of the error term decides whether the rounding moves on. */
  lemma ErrorDecides(major: int, minor: int, i: int, k: int, error: int)
    requires 0 <= minor <= major && Nearest(major, minor, i, k) && error == ErrorTerm(major, minor, i, k)
    ensures error > 0 ==>
            Nearest(major, minor, i + 1, k + 1) &&
            error + 2 * minor - 2 * major == ErrorTerm(major, minor, i + 1, k + 1)
    ensures error <= 0 ==> Nearest(major, minor, i + 1, k) && error + 2 * minor == ErrorTerm(major, minor, i + 1, k)
  {
    assert 2 * minor * (i + 1) == 2 * minor * i + 2 * minor;
    assert major * (2 * k + 1) == 2 * major * k + major;
    assert major * (2 * k - 1) == 2 * major * k - major;
    assert major * (2 * (k + 1) + 1) == 2 * major * k + 3 * major;
    assert major * (2 * (k + 1) - 1) == 2 * major * k + major;
    assert 2 * major * (k + 1) == 2 * major * k + 2 * major;
    assert 2 * minor * (i + 2) == 2 * minor * (i + 1) + 2 * minor;
  }

  lemma NearestInBox(major: int, minor: int, i: int, k: int)
    requires 0 <= minor <= major && 0 <= i <= major && 0 < major && Nearest(major, minor, i, k)
    ensures 0 <= k <= minor
  {
    if k < 0 {
      Scaled(major, 2 * k + 1, -1);
      Product(2 * minor, i);
    } else if k > minor {
      Scaled(2 * minor, i, major);
      Scaled(major, 2 * minor, 2 * k - 1);
    }
  }

  lemma NearestEnds(major: int, minor: int)
    requires 0 < major
    ensures Nearest(major, minor, 0, 0) && Nearest(major, minor, major, minor)
  {
    assert major * (2 * minor - 1) == major * (2 * minor) - major;
    assert major * (2 * minor + 1) == major * (2 * minor) + major;
    assert 2 * minor * major == major * (2 * minor);
  }

  lemma MinorInBox(major: int, minor: int, i: int)
    requires 0 <= minor <= major && 0 <= i <= major && 0 < major
    ensures 0 <= Minor(major, minor, i) <= minor
    ensures Minor(major, minor, 0) == 0 && Minor(major, minor, major) == minor
  {
    hide Minor, Nearest;
    MinorIsNearest(major, minor, i);
    MinorIsNearest(major, minor, 0);
    MinorIsNearest(major, minor, major);
    NearestInBox(major, minor, i, Minor(major, minor, i));
    NearestEnds(major, minor);
    NearestUnique(major, minor, 0, 0, Minor(major, minor, 0));
    NearestUnique(major, minor, major, minor, Minor(major, minor, major));
  }

  lemma Product(a: int, b: int)
    requires a >= 0 && b >= 0
    ensures a * b >= 0
  {
  }

  function Abs(a: int): int {
    if a < 0 then -a else a
  }

  function Sign(a: int): int {
    if a < 0 then -1 else 1
  }

  /** A line that is neither vertical nor horizontal, its left end first. */
  predicate Slanted(p: Point, q: Point) {
    p.x < q.x && p.y != q.y
  }

  function Steps(p: Point, q: Point): (n: nat)
    requires Slanted(p, q)
    ensures n > 0
  {
    if q.x - p.x >= Abs(q.y - p.y) then q.x - p.x else Abs(q.y - p.y)
  }

  /** The i-th point of the line from p to q: one step along the longer axis, the nearest one along the other. */
  function LinePoint(p: Point, q: Point, i: int): Point
    requires Slanted(p, q)
  {
    var dx := q.x - p.x;
    var dy := Abs(q.y - p.y);
    if dx >= dy then Point(p.x + i, p.y + Sign(q.y - p.y) * Minor(dx, dy, i))
    else Point(p.x + Minor(dy, dx, i), p.y + Sign(q.y - p.y) * i)
  }

  /** The points of a slanted line start at p, end at q, and stay in the box between them. */
  lemma LineReachesEnd(p: Point, q: Point, i: int)
    requires Slanted(p, q) && 0 <= i <= Steps(p, q)
    ensures LinePoint(p, q, 0) == p && LinePoint(p, q, Steps(p, q)) == q
    ensures p.x <= LinePoint(p, q, i).x <= q.x
    ensures p.y < q.y ==> p.y <= LinePoint(p, q, i).y <= q.y
    ensures q.y < p.y ==> q.y <= LinePoint(p, q, i).y <= p.y
  {
    var dx := q.x - p.x;
    var dy := Abs(q.y - p.y);
    if dx >= dy {
      MinorInBox(dx, dy, i);
    } else {
      MinorInBox(dy, dx, i);
    }
  }

  lemma OffsetOfNearest(major: int, minor: int, i: int, k: int)
    requires Nearest(major, minor, i, k)
    ensures 2 * Abs(k * major - i * minor) <= major
  {
    assert major * (2 * k - 1) == 2 * (k * major) - major;
    assert major * (2 * k + 1) == 2 * (k * major) + major;
    assert 2 * minor * i == 2 * (i * minor);
  }

  lemma Mirrored(a: int, b: int, c: int, d: int)
    ensures (-a) * b - c * (-d) == -(a * b - c * d)
    ensures a * b - c * d == -(c * d - a * b)
  {
  }

  /** Every point is within half a pixel of the ideal line on the minor axis: twice the offset, scaled by the
      major length, is at most the major length. */
  lemma HalfPixel(p: Point, q: Point, i: int, r: Point)
    requires Slanted(p, q) && 0 <= i <= Steps(p, q) && r == LinePoint(p, q, i)
    ensures 2 * Abs((r.y - p.y) * (q.x - p.x) - (r.x - p.x) * (q.y - p.y)) <= Steps(p, q)
  {
    var dx := q.x - p.x;
    var dy := Abs(q.y - p.y);
    if dx >= dy {
      var k := Minor(dx, dy, i);
      MinorIsNearest(dx, dy, i);
      OffsetOfNearest(dx, dy, i, k);
      Mirrored(k, dx, i, dy);
      assert r.x - p.x == i && ((r.y - p.y == k && q.y - p.y == dy) || (r.y - p.y == -k && q.y - p.y == -dy));
    } else {
      var k := Minor(dy, dx, i);
      MinorIsNearest(dy, dx, i);
      OffsetOfNearest(dy, dx, i, k);
      Mirrored(i, dx, k, dy);
      assert r.x - p.x == k && ((r.y - p.y == i && q.y - p.y == dy) || (r.y - p.y == -i && q.y - p.y == -dy));
    }
  }

  /** Successive points are neighbours, so the line has no gaps. */
  lemma LineConnected(p: Point, q: Point, i: int)
    requires Slanted(p, q) && 0 <= i < Steps(p, q)
    ensures 0 <= LinePoint(p, q, i + 1).x - LinePoint(p, q, i).x <= 1
    ensures Abs(LinePoint(p, q, i + 1).y - LinePoint(p, q, i).y) <= 1
    ensures LinePoint(p, q, i + 1) != LinePoint(p, q, i)
  {
    var dx := q.x - p.x;
    var dy := Abs(q.y - p.y);
    if dx >= dy {
      MinorAdvances(dx, dy, i);
    } else {
      MinorAdvances(dy, dx, i);
    }
  }

  lemma MinorAdvances(major: int, minor: int, i: int)
    requires 0 <= minor <= major && 0 < major
    ensures 0 <= Minor(major, minor, i + 1) - Minor(major, minor, i) <= 1
  {
    var k := Minor(major, minor, i);
    MinorIsNearest(major, minor, i);
    MinorIsNearest(major, minor, i + 1);
    var error := ErrorTerm(major, minor, i, k);
    ErrorDecides(major, minor, i, k, error);
    NearestUnique(major, minor, i + 1, if error > 0 then k + 1 else k, Minor(major, minor, i + 1));
  }

  // ---- the frame ----

  /** The bounds test of yuv420_draw_point. */
  predicate Accepted(w: int, h: int, p: Point) {
    0 <= p.x <= w && 0 <= p.y <= h
  }

  /** A rejected point, or one whose bytes lie in the frame; DrawableExactly says why these are all. */
  predicate Drawable(w: int, h: int, p: Point) {
    Accepted(w, h, p) ==> p.y < h && (p.x < w || p.y < h - 2)
  }

  predicate Frame(size: int, w: int, h: int) {
    0 < w && 0 < h && w % 2 == 0 && h % 2 == 0 && size == w * h + w * (h / 2)
  }

  /** Memory of so many bytes that begins with the frame; what lies behind the frame belongs to others. */
  predicate Memory(size: int, w: int, h: int) {
    0 < w && 0 < h && w % 2 == 0 && h % 2 == 0 && size >= w * h + w * (h / 2)
  }

  /** A rejected point, or one whose bytes lie in the memory. */
  predicate Writable(size: int, w: int, h: int, p: Point) {
    Accepted(w, h, p) ==> ChromaAt(w, h, p) + 1 < size
  }

  function Even(a: int): int {
    if a % 2 == 1 then a - 1 else a
  }

  function LumaAt(w: int, p: Point): int {
    Even(p.y) * w + Even(p.x)
  }

  function ChromaAt(w: int, h: int, p: Point): int {
    w * h + (Even(p.y) / 2) * w + Even(p.x)
  }

  lemma RowFits(a: int, n: int, w: int)
    requires 0 <= a < n && 0 < w
    ensures 0 <= a * w && a * w + w <= n * w
  {
    Product(a, w);
    Product(n - 1 - a, w);
    assert (n - 1 - a) * w == n * w - w - a * w;
  }

  /** The bytes of an accepted point come in this order, behind the start of the frame. */
  lemma PointFits(size: int, w: int, h: int, p: Point)
    requires Memory(size, w, h) && Accepted(w, h, p) && Writable(size, w, h, p)
    ensures 0 <= LumaAt(w, p) < ChromaAt(w, h, p) && ChromaAt(w, h, p) + 1 < size
  {
    LumaBeforeChroma(Even(p.y), Even(p.y) / 2, w, h);
  }

  lemma LumaBeforeChroma(y: int, r: int, w: int, h: int)
    requires y == 2 * r && 0 <= y <= h && 0 < h && 0 < w
    ensures 0 <= y * w < w * h + r * w
  {
    Product(y, w);
    RowFits(r, h, w);
    var rows := r * w;
    assert y * w == 2 * rows;
    assert h * w == w * h;
  }

  /** A drawable point's bytes lie in the frame, each in its own plane. */
  lemma DrawableFits(size: int, w: int, h: int, p: Point)
    requires Memory(size, w, h) && Accepted(w, h, p) && Drawable(w, h, p)
    ensures 0 <= LumaAt(w, p) < w * h <= ChromaAt(w, h, p) && ChromaAt(w, h, p) + 1 < size
  {
    DrawableExactly(w * h + w * (h / 2), w, h, p);
    Product(Even(p.y) / 2, w);
    LumaFits(Even(p.y), Even(p.x), w, h);
  }

  /** No accepted point is written further behind the frame than one row and two bytes. */
  lemma OneRowBehind(size: int, w: int, h: int, p: Point)
    requires Memory(size, w, h) && size >= w * h + w * (h / 2) + w + 2
    ensures Writable(size, w, h, p)
  {
    if Accepted(w, h, p) {
      RowFits(Even(p.y) / 2, h / 2 + 1, w);
      assert (h / 2 + 1) * w == w * (h / 2) + w;
    }
  }

  lemma LumaFits(y: int, x: int, w: int, h: int)
    requires 0 <= y <= h - 2 && 0 <= x <= w && 0 < w && (x < w || y <= h - 4)
    ensures 0 <= y * w + x < w * h
  {
    RowFits(y, if x < w then h else h - 2, w);
    assert (h - 2) * w == h * w - 2 * w;
    assert h * w == w * h;
  }

  /** The bounds test also lets through the points on the line x == width or y == height: exactly those of them that
      are not drawable make the write leave the buffer, the others land in the next row. */
  lemma DrawableExactly(size: int, w: int, h: int, p: Point)
    requires Frame(size, w, h) && Accepted(w, h, p)
    ensures ChromaAt(w, h, p) + 1 < size <==> Drawable(w, h, p)
  {
    LastRows(Even(p.y) / 2, h / 2, w, Even(p.x));
    assert (h / 2) * w == w * (h / 2);
  }

  lemma LastRows(r: int, m: int, w: int, x: int)
    requires 0 <= r <= m && 0 < w && 0 <= x <= w && w % 2 == 0 && x % 2 == 0
    ensures r * w + x + 1 < m * w <==> r < m && (x < w || r < m - 1)
  {
    if r < m - 1 {
      RowFits(r, m - 1, w);
      assert (m - 1) * w == m * w - w;
    } else if r == m - 1 {
      assert (m - 1) * w == m * w - w;
    }
  }

  /** What yuv420_draw_point leaves: points the test rejects change nothing, odd coordinates are rounded down. */
  function Plot(img: seq<bv8>, w: int, h: int, p: Point, c: Color): (r: seq<bv8>)
    requires Memory(|img|, w, h) && Writable(|img|, w, h, p)
    ensures |r| == |img|
  {
    if !Accepted(w, h, p) then img
    else
      PointFits(|img|, w, h, p);
      img[LumaAt(w, p) := c.y][ChromaAt(w, h, p) := c.u][ChromaAt(w, h, p) + 1 := c.v]
  }

  method DrawPoint(img: array<bv8>, w: int, h: int, p: Point, c: Color) returns (ret: int)
    requires Memory(img.Length, w, h) && Writable(img.Length, w, h, p)
    modifies img
    ensures img[..] == Plot(old(img[..]), w, h, p, c)
    ensures ret == if Accepted(w, h, p) then 0 else -1
  {
    if p.x < 0 || p.x > w || p.y < 0 || p.y > h {
      return -1;
    }
    var x, y := p.x, p.y;
    if x % 2 != 0 {
      x := x - 1;
    }
    if y % 2 != 0 {
      y := y - 1;
    }
    var imgSize := w * h;
    PointFits(img.Length, w, h, p);
    HalfRow(y, w);
    WritePoint(img, y * w + x, imgSize + y * w / 2 + x, c);
    return 0;
  }

  method WritePoint(img: array<bv8>, luma: nat, chroma: nat, c: Color)
    requires luma < img.Length && chroma + 1 < img.Length
    modifies img
    ensures img[..] == old(img[..])[luma := c.y][chroma := c.u][chroma + 1 := c.v]
  {
    img[luma] := c.y;
    img[chroma] := c.u;
    img[chroma + 1] := c.v;
  }

  lemma PlotRejects(img: seq<bv8>, w: int, h: int, p: Point, c: Color)
    requires Memory(|img|, w, h) && !Accepted(w, h, p)
    ensures Plot(img, w, h, p, c) == img
  {
  }

  lemma HalfRow(y: int, w: int)
    requires y >= 0 && y % 2 == 0 && w > 0
    ensures y * w / 2 == (y / 2) * w
  {
    var k := y / 2;
    assert y * w == 2 * (k * w);
  }

  /** Drawing p leaves what lies behind the frame as it is. */
  predicate KeepsBehind(img: seq<bv8>, w: int, h: int, p: Point, c: Color)
    requires Memory(|img|, w, h) && Writable(|img|, w, h, p)
  {
    Plot(img, w, h, p, c)[w * h + w * (h / 2)..] == img[w * h + w * (h / 2)..]
  }

  /** A point never touches what lies behind the frame, whatever picture and colour, if and only if it is rejected or
      drawable. */
  lemma FrameKeptExactly(size: nat, w: int, h: int, p: Point)
    requires Memory(size, w, h) && Writable(size, w, h, p)
    ensures (forall img: seq<bv8>, c: Color | |img| == size :: KeepsBehind(img, w, h, p, c)) <==> Drawable(w, h, p)
  {
    hide LumaAt, ChromaAt, Drawable, Writable;
    if !Accepted(w, h, p) {
      RejectedIsDrawable(w, h, p);
    } else {
      PointFits(size, w, h, p);
      DrawableExactly(w * h + w * (h / 2), w, h, p);
      var last := ChromaAt(w, h, p) + 1;
      if Drawable(w, h, p) {
        DrawableFits(size, w, h, p);
      } else {
        var img: seq<bv8> := seq(size, _ => 0);
        assert Plot(img, w, h, p, Color(0, 0, 1))[last] != img[last];
        Behind(Plot(img, w, h, p, Color(0, 0, 1)), img, w * h + w * (h / 2), last);
        assert !KeepsBehind(img, w, h, p, Color(0, 0, 1));
      }
    }
  }

  lemma RejectedIsDrawable(w: int, h: int, p: Point)
    requires !Accepted(w, h, p)
    ensures Drawable(w, h, p)
  {
  }

  lemma Behind(a: seq<bv8>, b: seq<bv8>, from: int, j: int)
    requires |a| == |b| && 0 <= from <= j < |a| && a[j] != b[j]
    ensures a[from..] != b[from..]
  {
    assert a[from..][j - from] != b[from..][j - from];
  }

  /** A slanted line all of whose points can be drawn. */
  ghost predicate WritableLine(size: int, w: int, h: int, p: Point, q: Point) {
    Slanted(p, q) && forall i {:trigger LinePoint(p, q, i)} :: 0 <= i <= Steps(p, q) ==>
      Writable(size, w, h, LinePoint(p, q, i))
  }

  /** The first n points of a slanted line, plotted. */
  ghost function PlotLine(img: seq<bv8>, w: int, h: int, p: Point, q: Point, c: Color, n: nat): (r: seq<bv8>)
    requires Memory(|img|, w, h) && WritableLine(|img|, w, h, p, q) && n <= Steps(p, q) + 1
    ensures |r| == |img|
  {
    if n == 0 then img
    else
      LineReachesEnd(p, q, n - 1);
      Plot(PlotLine(img, w, h, p, q, c, n - 1), w, h, LinePoint(p, q, n - 1), c)
  }

  /** The loops' count of minor steps is the rounding of the reference. */
  lemma PointIs(p: Point, q: Point, i: nat, k: int)
    requires Slanted(p, q) && i <= Steps(p, q)
    requires var dx := q.x - p.x;
             var dy := Abs(q.y - p.y);
             if dx >= dy then Nearest(dx, dy, i, k) else Nearest(dy, dx, i, k)
    ensures LinePoint(p, q, i) ==
            if q.x - p.x >= Abs(q.y - p.y) then Point(p.x + i, p.y + Sign(q.y - p.y) * k)
            else Point(p.x + k, p.y + Sign(q.y - p.y) * i)
  {
    var dx := q.x - p.x;
    var dy := Abs(q.y - p.y);
    if dx >= dy {
      MinorIsNearest(dx, dy, i);
      NearestUnique(dx, dy, i, k, Minor(dx, dy, i));
    } else {
      MinorIsNearest(dy, dx, i);
      NearestUnique(dy, dx, i, k, Minor(dy, dx, i));
    }
  }

  /** What every octant loop keeps: i points after the first are plotted, the current point is the i-th one, and
      the error term, up to its sign, is the one of the rounding k. */
  ghost predicate Drawing(img: seq<bv8>, before: seq<bv8>, w: int, h: int, p: Point, q: Point, c: Color,
                          point: Point, error: int, i: int, k: int)
  {
    && Memory(|before|, w, h) && WritableLine(|before|, w, h, p, q)
    && 0 <= i <= Steps(p, q)
    && var dx, dy := q.x - p.x, Abs(q.y - p.y);
       && point == LinePoint(p, q, i)
       && (if dx >= dy then
             Nearest(dx, dy, i, k) && error == ErrorTerm(dx, dy, i, k) &&
               point == Point(p.x + i, p.y + Sign(q.y - p.y) * k)
           else
             Nearest(dy, dx, i, k) && error == ErrorTerm(dy, dx, i, k) &&
               point == Point(p.x + k, p.y + Sign(q.y - p.y) * i))
       && img == PlotLine(before, w, h, p, q, c, i + 1)
  }

  /** Before an octant loop only the first end is plotted. */
  lemma DrawingStarts(img: seq<bv8>, before: seq<bv8>, w: int, h: int, p: Point, q: Point, c: Color)
    requires Memory(|before|, w, h) && WritableLine(|before|, w, h, p, q)
    requires Writable(|before|, w, h, p) && img == Plot(before, w, h, p, c)
    ensures var dx, dy := q.x - p.x, Abs(q.y - p.y);
            Drawing(img, before, w, h, p, q, c, p, if dx >= dy then 2 * dy - dx else 2 * dx - dy, 0, 0)
  {
    hide Plot, Minor, Writable;
    LineReachesEnd(p, q, 0);
    assert PlotLine(before, w, h, p, q, c, 0) == before;
    assert Nearest(q.x - p.x, Abs(q.y - p.y), 0, 0) && Nearest(Abs(q.y - p.y), q.x - p.x, 0, 0);
  }

  /** One turn: the point the sign of the error term selects is the next one, it is inside the frame's upper
      bounds, and after plotting it the loop is one step further. */
  lemma DrawingTurns(img: seq<bv8>, before: seq<bv8>, w: int, h: int, p: Point, q: Point, c: Color,
                     point: Point, error: int, i: int, k: int)
    requires Drawing(img, before, w, h, p, q, c, point, error, i, k) && i < Steps(p, q)
    ensures var dx, dy, s := q.x - p.x, Abs(q.y - p.y), Sign(q.y - p.y);
            var next := if dx >= dy then Point(point.x + 1, if error > 0 then point.y + s else point.y)
                        else Point(if error > 0 then point.x + 1 else point.x, point.y + s);
            var error' := if error > 0 then error + 2 * (if dx >= dy then dy - dx else dx - dy)
              else error + 2 * (if dx >= dy then dy else dx);
            && |img| == |before| && Writable(|before|, w, h, next)
            && Drawing(Plot(img, w, h, next, c), before, w, h, p, q, c, next, error', i + 1,
                       if error > 0 then k + 1 else k)
  {
    hide Plot, Minor, Nearest, ErrorTerm, LinePoint, Steps, Writable;
    var dx, dy := q.x - p.x, Abs(q.y - p.y);
    var m := if error > 0 then k + 1 else k;
    if dx >= dy {
      ErrorDecides(dx, dy, i, k, error);
    } else {
      ErrorDecides(dy, dx, i, k, error);
    }
    PointIs(p, q, i + 1, m);
    LineReachesEnd(p, q, i + 1);
  }

  /** The loops stop exactly at the other end: the guard of each fails at step Steps(p, q) and not before. */
  lemma DrawingStops(img: seq<bv8>, before: seq<bv8>, w: int, h: int, p: Point, q: Point, c: Color,
                     point: Point, error: int, i: int, k: int)
    requires Drawing(img, before, w, h, p, q, c, point, error, i, k)
    ensures q.x - p.x >= Abs(q.y - p.y) ==> (point.x < q.x <==> i < Steps(p, q))
    ensures Abs(q.y - p.y) > q.x - p.x && q.y > p.y ==> (point.y < q.y <==> i < Steps(p, q))
    ensures Abs(q.y - p.y) > q.x - p.x && q.y < p.y ==> (point.y > q.y <==> i < Steps(p, q))
    ensures i == Steps(p, q) ==> point == q
    ensures img == PlotLine(before, w, h, p, q, c, i + 1)
  {
    hide Plot, Minor, Nearest, ErrorTerm, LinePoint, PlotLine;
    LineReachesEnd(p, q, i);
  }

  /** Slope above 0, at most 1. */
  method DrawGentleUp(img: array<bv8>, w: int, h: int, p: Point, q: Point, c: Color, ghost before: seq<bv8>)
    requires Memory(img.Length, w, h) && |before| == img.Length && WritableLine(|before|, w, h, p, q)
    requires q.x - p.x >= q.y - p.y > 0
    requires Writable(|before|, w, h, p) && img[..] == Plot(before, w, h, p, c)
    modifies img
    ensures img[..] == PlotLine(before, w, h, p, q, c, Steps(p, q) + 1)
  {
    hide Plot, PlotLine, Drawing, LinePoint, Steps, Writable;
    DrawingStarts(img[..], before, w, h, p, q, c);
    var dx, dy := q.x - p.x, q.y - p.y;
    var error := dy * 2 - dx;
    var point := p;
    ghost var i, k := 0, 0;
    while point.x < q.x
      invariant 0 <= i <= Steps(p, q) && Drawing(img[..], before, w, h, p, q, c, point, error, i, k)
      decreases Steps(p, q) - i
    {
      DrawingStops(img[..], before, w, h, p, q, c, point, error, i, k);
      DrawingTurns(img[..], before, w, h, p, q, c, point, error, i, k);
      if error > 0 {
        error := error + (dy - dx) * 2;
        point := Point(point.x + 1, point.y + 1);
        k := k + 1;
      } else {
        error := error + dy * 2;
        point := Point(point.x + 1, point.y);
      }
      i := i + 1;
      var _ := DrawPoint(img, w, h, point, c);
    }
    DrawingStops(img[..], before, w, h, p, q, c, point, error, i, k);
  }

  /** Slope above 1. */
  method DrawSteepUp(img: array<bv8>, w: int, h: int, p: Point, q: Point, c: Color, ghost before: seq<bv8>)
    requires Memory(img.Length, w, h) && |before| == img.Length && WritableLine(|before|, w, h, p, q)
    requires q.y - p.y > q.x - p.x
    requires Writable(|before|, w, h, p) && img[..] == Plot(before, w, h, p, c)
    modifies img
    ensures img[..] == PlotLine(before, w, h, p, q, c, Steps(p, q) + 1)
  {
    hide Plot, PlotLine, Drawing, LinePoint, Steps, Writable;
    DrawingStarts(img[..], before, w, h, p, q, c);
    var dx, dy := q.x - p.x, q.y - p.y;
    var error := dy - dx * 2;
    var point := p;
    ghost var i, k := 0, 0;
    while point.y < q.y
      invariant 0 <= i <= Steps(p, q) && Drawing(img[..], before, w, h, p, q, c, point, -error, i, k)
      decreases Steps(p, q) - i
    {
      DrawingStops(img[..], before, w, h, p, q, c, point, -error, i, k);
      DrawingTurns(img[..], before, w, h, p, q, c, point, -error, i, k);
      if error < 0 {
        error := error + (dy - dx) * 2;
        point := Point(point.x + 1, point.y + 1);
        k := k + 1;
      } else {
        error := error + (-dx) * 2;
        point := Point(point.x, point.y + 1);
      }
      i := i + 1;
      var _ := DrawPoint(img, w, h, point, c);
    }
    DrawingStops(img[..], before, w, h, p, q, c, point, -error, i, k);
  }

  /** Slope below 0, at least -1. */
  method DrawGentleDown(img: array<bv8>, w: int, h: int, p: Point, q: Point, c: Color, ghost before: seq<bv8>)
    requires Memory(img.Length, w, h) && |before| == img.Length && WritableLine(|before|, w, h, p, q)
    requires q.x - p.x >= p.y - q.y > 0
    requires Writable(|before|, w, h, p) && img[..] == Plot(before, w, h, p, c)
    modifies img
    ensures img[..] == PlotLine(before, w, h, p, q, c, Steps(p, q) + 1)
  {
    hide Plot, PlotLine, Drawing, LinePoint, Steps, Writable;
    DrawingStarts(img[..], before, w, h, p, q, c);
    var dx, dy := q.x - p.x, q.y - p.y;
    var error := dy * 2 + dx;
    var point := p;
    ghost var i, k := 0, 0;
    while point.x < q.x
      invariant 0 <= i <= Steps(p, q) && Drawing(img[..], before, w, h, p, q, c, point, -error, i, k)
      decreases Steps(p, q) - i
    {
      DrawingStops(img[..], before, w, h, p, q, c, point, -error, i, k);
      DrawingTurns(img[..], before, w, h, p, q, c, point, -error, i, k);
      if error < 0 {
        error := error + (dy + dx) * 2;
        point := Point(point.x + 1, point.y - 1);
        k := k + 1;
      } else {
        error := error + dy * 2;
        point := Point(point.x + 1, point.y);
      }
      i := i + 1;
      var _ := DrawPoint(img, w, h, point, c);
    }
    DrawingStops(img[..], before, w, h, p, q, c, point, -error, i, k);
  }

  /** Slope below -1. */
  method DrawSteepDown(img: array<bv8>, w: int, h: int, p: Point, q: Point, c: Color, ghost before: seq<bv8>)
    requires Memory(img.Length, w, h) && |before| == img.Length && WritableLine(|before|, w, h, p, q)
    requires p.y - q.y > q.x - p.x
    requires Writable(|before|, w, h, p) && img[..] == Plot(before, w, h, p, c)
    modifies img
    ensures img[..] == PlotLine(before, w, h, p, q, c, Steps(p, q) + 1)
  {
    hide Plot, PlotLine, Drawing, LinePoint, Steps, Writable;
    DrawingStarts(img[..], before, w, h, p, q, c);
    var dx, dy := q.x - p.x, q.y - p.y;
    var error := dy + dx * 2;
    var point := p;
    ghost var i, k := 0, 0;
    while point.y > q.y
      invariant 0 <= i <= Steps(p, q) && Drawing(img[..], before, w, h, p, q, c, point, error, i, k)
      decreases Steps(p, q) - i
    {
      DrawingStops(img[..], before, w, h, p, q, c, point, error, i, k);
      DrawingTurns(img[..], before, w, h, p, q, c, point, error, i, k);
      if error > 0 {
        error := error + (dy + dx) * 2;
        point := Point(point.x + 1, point.y - 1);
        k := k + 1;
      } else {
        error := error + dx * 2;
        point := Point(point.x, point.y - 1);
      }
      i := i + 1;
      var _ := DrawPoint(img, w, h, point, c);
    }
    DrawingStops(img[..], before, w, h, p, q, c, point, error, i, k);
  }

  // ---- vertical and horizontal lines ----

  /** The i-th point below or right of p. */
  function RunPoint(p: Point, down: bool, i: int): Point {
    if down then Point(p.x, p.y + i) else Point(p.x + i, p.y)
  }

  /** How many of the n points after p the bounds test accepts before it first rejects one. */
  function Leading(w: int, h: int, p: Point, down: bool, n: nat): (k: nat)
    ensures k <= n
  {
    if n == 0 then 0
    else
      var k := Leading(w, h, p, down, n - 1);
      if k == n - 1 && Accepted(w, h, RunPoint(p, down, n)) then n else k
  }

  /** The points that will be drawn can be. */
  ghost predicate WritableRun(size: int, w: int, h: int, p: Point, down: bool, n: nat) {
    forall i {:trigger RunPoint(p, down, i)} :: 1 <= i <= n ==> Writable(size, w, h, RunPoint(p, down, i))
  }

  /** The n points after p, plotted. */
  ghost function PlotRun(img: seq<bv8>, w: int, h: int, p: Point, down: bool, c: Color, n: nat): (r: seq<bv8>)
    requires Memory(|img|, w, h) && WritableRun(|img|, w, h, p, down, n)
    ensures |r| == |img|
  {
    if n == 0 then img else Plot(PlotRun(img, w, h, p, down, c, n - 1), w, h, RunPoint(p, down, n), c)
  }

  /** Once a point is rejected the count stands. */
  lemma {:induction false} LeadingStops(w: int, h: int, p: Point, down: bool, m: nat, n: nat)
    requires m < n && Leading(w, h, p, down, m) == m && !Accepted(w, h, RunPoint(p, down, m + 1))
    ensures Leading(w, h, p, down, n) == m
  {
    if n > m + 1 {
      LeadingStops(w, h, p, down, m, n - 1);
    }
  }

  function Min(a: int, b: int): int {
    if a <= b then a else b
  }

  /** These loops plot from the point after the first end to the other end, and give up at the first point the bounds
      test rejects. */
  method DrawVline(img: array<bv8>, w: int, h: int, a: Point, b: Point, c: Color) returns (ret: int)
    requires Memory(img.Length, w, h)
    requires var p, n := Point(a.x, Min(a.y, b.y)), Abs(b.y - a.y);
             WritableRun(img.Length, w, h, p, true, Leading(w, h, p, true, n))
    modifies img
    ensures var p, n := Point(a.x, Min(a.y, b.y)), Abs(b.y - a.y);
            var k := Leading(w, h, p, true, n);
            img[..] == PlotRun(old(img[..]), w, h, p, true, c, k) && ret == if k == n then 0 else -1
  {
    var y0, y1 := a.y, b.y;
    if y0 > y1 {
      y0, y1 := y1, y0;
    }
    ret := DrawRun(img, w, h, Point(a.x, y0), true, y1 - y0, c);
  }

  method DrawHline(img: array<bv8>, w: int, h: int, a: Point, b: Point, c: Color) returns (ret: int)
    requires Memory(img.Length, w, h)
    requires var p, n := Point(Min(a.x, b.x), a.y), Abs(b.x - a.x);
             WritableRun(img.Length, w, h, p, false, Leading(w, h, p, false, n))
    modifies img
    ensures var p, n := Point(Min(a.x, b.x), a.y), Abs(b.x - a.x);
            var k := Leading(w, h, p, false, n);
            img[..] == PlotRun(old(img[..]), w, h, p, false, c, k) && ret == if k == n then 0 else -1
  {
    var x0, x1 := a.x, b.x;
    if x0 > x1 {
      x0, x1 := x1, x0;
    }
    ret := DrawRun(img, w, h, Point(x0, a.y), false, x1 - x0, c);
  }

  /** The loop of both. */
  method DrawRun(img: array<bv8>, w: int, h: int, p: Point, down: bool, n: nat, c: Color) returns (ret: int)
    requires Memory(img.Length, w, h) && WritableRun(img.Length, w, h, p, down, Leading(w, h, p, down, n))
    modifies img
    ensures var k := Leading(w, h, p, down, n);
            img[..] == PlotRun(old(img[..]), w, h, p, down, c, k) && ret == if k == n then 0 else -1
  {
    hide Plot, Writable, Accepted, Leading;
    ghost var was := img[..];
    NoneLeads(w, h, p, down);
    var point, i := p, 0;
    while i < n
      invariant 0 <= i <= n && point == RunPoint(p, down, i) &&
                Leading(w, h, p, down, i) == i <= Leading(w, h, p, down, n)
      invariant img[..] == PlotRun(was, w, h, p, down, c, i)
    {
      point := if down then Point(point.x, point.y + 1) else Point(point.x + 1, point.y);
      ghost var shown := img[..];
      NextLeads(img.Length, w, h, p, down, i, n);
      ret := DrawPoint(img, w, h, point, c);
      if ret != 0 {
        PlotRejects(shown, w, h, point, c);
        return -1;
      }
      i := i + 1;
    }
    return 0;
  }

  lemma NoneLeads(w: int, h: int, p: Point, down: bool)
    ensures Leading(w, h, p, down, 0) == 0 && RunPoint(p, down, 0) == p
  {
  }

  /** One more point: accepted, it belongs to those drawn; rejected, it ends them. */
  lemma NextLeads(size: int, w: int, h: int, p: Point, down: bool, i: nat, n: nat)
    requires i < n && Leading(w, h, p, down, i) == i <= Leading(w, h, p, down, n)
    ensures Accepted(w, h, RunPoint(p, down, i + 1)) ==>
            Leading(w, h, p, down, i + 1) == i + 1 <= Leading(w, h, p, down, n)
    ensures !Accepted(w, h, RunPoint(p, down, i + 1)) ==>
            Leading(w, h, p, down, n) == i && Writable(size, w, h, RunPoint(p, down, i + 1))
  {
    if Accepted(w, h, RunPoint(p, down, i + 1)) {
      LeadingGrows(w, h, p, down, i + 1, n);
    } else {
      LeadingStops(w, h, p, down, i, n);
    }
  }

  lemma {:induction false} LeadingGrows(w: int, h: int, p: Point, down: bool, m: nat, n: nat)
    requires m <= n
    ensures Leading(w, h, p, down, m) <= Leading(w, h, p, down, n)
  {
    if m < n {
      LeadingGrows(w, h, p, down, m, n - 1);
    }
  }

  // ---- the whole operation ----

  function LeftFirst(a: Point, b: Point): (Point, Point) {
    if a.x > b.x then (b, a) else (a, b)
  }

  /** Every point that will be drawn between two points lies in the buffer. */
  ghost predicate WritableBetween(size: int, w: int, h: int, a: Point, b: Point) {
    var (p, q) := LeftFirst(a, b);
    if a.x == b.x then
      var top := Point(a.x, Min(a.y, b.y)); WritableRun(size, w, h, top, true, Leading(w, h, top, true, Abs(b.y - a.y)))
    else if a.y == b.y then WritableRun(size, w, h, p, false, Leading(w, h, p, false, q.x - p.x))
    else WritableLine(size, w, h, p, q)
  }

  /** The picture yuv420_draw_tline promises between two points. */
  ghost function LineDrawn(img: seq<bv8>, w: int, h: int, a: Point, b: Point, c: Color): seq<bv8>
    requires Memory(|img|, w, h) && WritableBetween(|img|, w, h, a, b)
  {
    var (p, q) := LeftFirst(a, b);
    if a.x == b.x then
      var top := Point(a.x, Min(a.y, b.y)); PlotRun(img, w, h, top, true, c, Leading(w, h, top, true, Abs(b.y - a.y)))
    else if a.y == b.y then PlotRun(img, w, h, p, false, c, Leading(w, h, p, false, q.x - p.x))
    else PlotLine(img, w, h, p, q, c, Steps(p, q) + 1)
  }

  /** Points inside the frame's far edges can be drawn, and so can everything between them. */
  lemma InsideIsDrawable(size: int, w: int, h: int, a: Point, b: Point)
    requires Memory(size, w, h) && a.x < w && b.x < w && a.y < h && b.y < h
    ensures WritableBetween(size, w, h, a, b)
  {
    hide Writable, Drawable;
    var (p, q) := LeftFirst(a, b);
    forall r: Point | r.x < w && r.y < h
      ensures Writable(size, w, h, r)
    {
      InsidePoint(size, w, h, r);
    }
    if a.x != b.x && a.y != b.y {
      forall i | 0 <= i <= Steps(p, q)
        ensures Writable(size, w, h, LinePoint(p, q, i))
      {
        LineReachesEnd(p, q, i);
      }
    }
  }

  lemma InsidePoint(size: int, w: int, h: int, p: Point)
    requires Memory(size, w, h) && p.x < w && p.y < h
    ensures Drawable(w, h, p) && Writable(size, w, h, p)
  {
    if Accepted(w, h, p) {
      DrawableFits(size, w, h, p);
    }
  }

  /** With one row and two bytes of memory behind the frame the operation is defined between any two points. */
  lemma AnythingIsWritable(size: int, w: int, h: int, a: Point, b: Point)
    requires Memory(size, w, h) && size >= w * h + w * (h / 2) + w + 2
    ensures WritableBetween(size, w, h, a, b)
  {
    hide Writable;
    forall r: Point
      ensures Writable(size, w, h, r)
    {
      OneRowBehind(size, w, h, r);
    }
  }

  method DrawTline(img: array<bv8>, w: int, h: int, a: Point, b: Point, c: Color) returns (ret: int)
    requires Memory(img.Length, w, h) && WritableBetween(img.Length, w, h, a, b)
    modifies img
    ensures img[..] == LineDrawn(old(img[..]), w, h, a, b, c) && ret == 0
  {
    hide Plot, PlotLine, PlotRun, Steps, Writable, Leading;
    var p, q := a, b;
    if p.x > q.x {
      p, q := q, p;
    }
    var dx, dy := q.x - p.x, q.y - p.y;
    if dx == 0 {
      var _ := DrawVline(img, w, h, a, b, c);
      return 0;
    }
    if dy == 0 {
      var _ := DrawHline(img, w, h, a, b, c);
      return 0;
    }
    ghost var before := img[..];
    LineReachesEnd(p, q, 0);
    var _ := DrawPoint(img, w, h, p, c);
    if dx >= dy && dy > 0 {
      DrawGentleUp(img, w, h, p, q, c, before);
      return 0;
    }
    if dy > dx && dy > 0 {
      DrawSteepUp(img, w, h, p, q, c, before);
      return 0;
    }
    if dx >= Abs(dy) && dy < 0 {
      DrawGentleDown(img, w, h, p, q, c, before);
      return 0;
    }
    if Abs(dy) > dx && dy < 0 {
      DrawSteepDown(img, w, h, p, q, c, before);
      return 0;
    }
    return 0;
  }

  /** Which bytes a slanted line colours: j is the luma byte of one of its first n points. */
  ghost predicate LumaOfLine(w: int, h: int, p: Point, q: Point, n: nat, j: int)
    requires Slanted(p, q)
  {
    exists i :: 0 <= i < n && Accepted(w, h, LinePoint(p, q, i)) && LumaAt(w, LinePoint(p, q, i)) == j
  }

  ghost predicate ChromaOfLine(w: int, h: int, p: Point, q: Point, n: nat, j: int)
    requires Slanted(p, q)
  {
    exists i :: 0 <= i < n && Accepted(w, h, LinePoint(p, q, i)) && ChromaAt(w, h, LinePoint(p, q, i)) == j
  }

  lemma ChromaEven(w: int, h: int, p: Point)
    requires 0 < w && w % 2 == 0
    ensures ChromaAt(w, h, p) % 2 == 0
  {
    var v := w / 2;
    assert w * h == 2 * (v * h) by { assert w == 2 * v; }
    assert (Even(p.y) / 2) * w == 2 * ((Even(p.y) / 2) * v) by { assert w == 2 * v; }
  }

  /** All points of the line that are accepted lie in the frame. */
  ghost predicate DrawableLine(w: int, h: int, p: Point, q: Point)
    requires Slanted(p, q)
  {
    forall i {:trigger LinePoint(p, q, i)} :: 0 <= i <= Steps(p, q) ==> Drawable(w, h, LinePoint(p, q, i))
  }

  /** The bytes after a slanted line: those of its visible points are the colour's and no other changes. No point of the
      line undoes another one. */
  lemma {:induction false} LineBytes(img: seq<bv8>, w: int, h: int, p: Point, q: Point, c: Color, n: nat, j: int)
    requires Memory(|img|, w, h) && WritableLine(|img|, w, h, p, q) && n <= Steps(p, q) + 1
    requires DrawableLine(w, h, p, q) && 0 <= j < |img|
    ensures PlotLine(img, w, h, p, q, c, n)[j] ==
            if j < w * h then (if LumaOfLine(w, h, p, q, n, j) then c.y else img[j])
            else if j % 2 == 0 then (if ChromaOfLine(w, h, p, q, n, j) then c.u else img[j])
            else (if ChromaOfLine(w, h, p, q, n, j - 1) then c.v else img[j])
  {
    hide LinePoint, LumaAt, ChromaAt, Steps, Plot, LumaOfLine, ChromaOfLine, Accepted;
    if n == 0 {
      NothingOfLine(w, h, p, q, j);
      NothingOfLine(w, h, p, q, j - 1);
    } else {
      var r := LinePoint(p, q, n - 1);
      LineBytes(img, w, h, p, q, c, n - 1, j);
      LineReachesEnd(p, q, n - 1);
      LumaGrows(w, h, p, q, n, j);
      ChromaGrows(w, h, p, q, n, if j % 2 == 0 then j else j - 1);
      PlotColours(PlotLine(img, w, h, p, q, c, n - 1), w, h, r, c, j);
    }
  }

  lemma NothingOfLine(w: int, h: int, p: Point, q: Point, j: int)
    requires Slanted(p, q)
    ensures !LumaOfLine(w, h, p, q, 0, j) && !ChromaOfLine(w, h, p, q, 0, j)
  {
  }

  /** One point colours its luma byte and the chroma pair of its two-by-two block, and nothing else. */
  lemma PlotColours(img: seq<bv8>, w: int, h: int, p: Point, c: Color, j: int)
    requires Memory(|img|, w, h) && Writable(|img|, w, h, p) && Drawable(w, h, p) && 0 <= j < |img|
    ensures Plot(img, w, h, p, c)[j] ==
            if !Accepted(w, h, p) then img[j]
            else if j < w * h then (if LumaAt(w, p) == j then c.y else img[j])
            else if j % 2 == 0 then (if ChromaAt(w, h, p) == j then c.u else img[j])
            else (if ChromaAt(w, h, p) == j - 1 then c.v else img[j])
  {
    hide LumaAt, ChromaAt;
    ChromaEven(w, h, p);
    if Accepted(w, h, p) {
      DrawableFits(|img|, w, h, p);
    }
  }

  lemma LumaGrows(w: int, h: int, p: Point, q: Point, n: nat, j: int)
    requires Slanted(p, q) && n > 0
    ensures var r := LinePoint(p, q, n - 1);
            LumaOfLine(w, h, p, q, n, j) <==>
              LumaOfLine(w, h, p, q, n - 1, j) || (Accepted(w, h, r) && LumaAt(w, r) == j)
  {
    hide LinePoint, LumaAt;
  }

  lemma ChromaGrows(w: int, h: int, p: Point, q: Point, n: nat, j: int)
    requires Slanted(p, q) && n > 0
    ensures var r := LinePoint(p, q, n - 1);
            ChromaOfLine(w, h, p, q, n, j) <==>
              ChromaOfLine(w, h, p, q, n - 1, j) || (Accepted(w, h, r) && ChromaAt(w, h, r) == j)
  {
    hide LinePoint, ChromaAt;
  }

  // ---- what a viewer sees ----

  /** The pixel whose luma an accepted point sets: its own, rounded to even coordinates; a point on the line x == w
      lands at the start of the odd row. */
  predicate Lights(w: int, p: Point, x: int, y: int) {
    if p.x < w then x == p.x - p.x % 2 && y == p.y - p.y % 2 else x == 0 && y == p.y - p.y % 2 + 1
  }

  /** The two-by-two block whose chroma it sets. */
  predicate Tints(w: int, p: Point, x: int, y: int) {
    if p.x < w then x == p.x / 2 && y == p.y / 2 else x == 0 && y == p.y / 2 + 1
  }

  lemma SamePlace(w: int, y: int, x: int, v: int, u: int)
    requires 0 <= x < w && 0 <= u < w
    ensures y * w + x == v * w + u <==> y == v && x == u
  {
    if y < v {
      Product(v - y - 1, w);
      assert (v - y - 1) * w == v * w - y * w - w;
    } else if v < y {
      Product(y - v - 1, w);
      assert (y - v - 1) * w == y * w - v * w - w;
    }
  }

  lemma PixelFits(size: int, w: int, h: int, x: int, y: int)
    requires Memory(size, w, h) && 0 <= x < w && 0 <= y < h
    ensures 0 <= y * w + x < w * h <= size
  {
    RowFits(y, h, w);
    Product(w, h / 2);
    assert h * w == w * h;
  }

  lemma BlockFits(size: int, w: int, h: int, x: int, y: int)
    requires Memory(size, w, h) && 0 <= x < w / 2 && 0 <= y < h / 2
    ensures w * h <= w * h + y * w + 2 * x && w * h + y * w + 2 * x + 1 < size
    ensures (w * h + y * w + 2 * x) % 2 == 0
  {
    RowFits(y, h / 2, w);
    Product(w, h);
    EvenMultiple(w, h);
    EvenMultiple(w, y);
    Swapped(w, y);
    Swapped(w, h / 2);
    BlockInside(size, w * h, w * (h / 2), y * w, w, x);
  }

  lemma Swapped(a: int, b: int)
    ensures a * b == b * a
  {
  }

  lemma BlockInside(size: int, area: int, half: int, row: int, w: int, x: int)
    requires size >= area + half && area >= 0 && 0 <= row && row + w <= half && 0 <= x < w / 2
    requires area % 2 == 0 && row % 2 == 0
    ensures area <= area + row + 2 * x && area + row + 2 * x + 1 < size && (area + row + 2 * x) % 2 == 0
  {
  }

  lemma EvenMultiple(w: int, n: int)
    requires w % 2 == 0
    ensures w * n % 2 == 0
  {
    var v := w / 2;
    assert w * n == 2 * (v * n);
  }

  lemma LumaPixel(w: int, h: int, p: Point, x: int, y: int)
    requires 0 < w && w % 2 == 0 && Accepted(w, h, p) && 0 <= x < w
    ensures LumaAt(w, p) == y * w + x <==> Lights(w, p, x, y)
  {
    if p.x < w {
      SamePlace(w, Even(p.y), Even(p.x), y, x);
    } else {
      SamePlace(w, Even(p.y) + 1, 0, y, x);
      assert (Even(p.y) + 1) * w == Even(p.y) * w + w;
    }
  }

  lemma ChromaBlock(w: int, h: int, p: Point, x: int, y: int)
    requires 0 < w && w % 2 == 0 && Accepted(w, h, p) && 0 <= x < w / 2
    ensures ChromaAt(w, h, p) == w * h + y * w + 2 * x <==> Tints(w, p, x, y)
  {
    var r := Even(p.y) / 2;
    assert r == p.y / 2 && Even(p.x) == 2 * (p.x / 2);
    if p.x < w {
      SamePlace(w, r, Even(p.x), y, 2 * x);
    } else {
      SamePlace(w, r + 1, 0, y, 2 * x);
      assert (r + 1) * w == r * w + w;
    }
  }

  /** A point changes the luma of the one pixel at its even coordinates, and the chroma of the block it lies in. */
  lemma PointColours(img: seq<bv8>, w: int, h: int, p: Point, c: Color, x: int, y: int)
    requires Memory(|img|, w, h) && Writable(|img|, w, h, p) && Drawable(w, h, p)
    ensures 0 <= x < w && 0 <= y < h ==>
            && 0 <= y * w + x < |img|
            && Plot(img, w, h, p, c)[y * w + x] ==
               if Accepted(w, h, p) && Lights(w, p, x, y) then c.y else img[y * w + x]
    ensures 0 <= x < w / 2 && 0 <= y < h / 2 ==>
            var k := w * h + y * w + 2 * x;
            && 0 <= k && k + 1 < |img|
            && Plot(img, w, h, p, c)[k] == (if Accepted(w, h, p) && Tints(w, p, x, y) then c.u else img[k])
            && Plot(img, w, h, p, c)[k + 1] == (if Accepted(w, h, p) && Tints(w, p, x, y) then c.v else img[k + 1])
  {
    hide Plot, LumaAt, ChromaAt, Lights, Tints, Writable, Drawable;
    if 0 <= x < w && 0 <= y < h {
      PixelFits(|img|, w, h, x, y);
      PlotColours(img, w, h, p, c, y * w + x);
      if Accepted(w, h, p) {
        LumaPixel(w, h, p, x, y);
      }
    }
    if 0 <= x < w / 2 && 0 <= y < h / 2 {
      var k := w * h + y * w + 2 * x;
      BlockFits(|img|, w, h, x, y);
      PlotColours(img, w, h, p, c, k);
      PlotColours(img, w, h, p, c, k + 1);
      if Accepted(w, h, p) {
        ChromaBlock(w, h, p, x, y);
      }
    }
  }

  ghost predicate LineLights(w: int, h: int, p: Point, q: Point, n: nat, x: int, y: int)
    requires Slanted(p, q)
  {
    exists i :: 0 <= i < n && Accepted(w, h, LinePoint(p, q, i)) && Lights(w, LinePoint(p, q, i), x, y)
  }

  ghost predicate LineTints(w: int, h: int, p: Point, q: Point, n: nat, x: int, y: int)
    requires Slanted(p, q)
  {
    exists i :: 0 <= i < n && Accepted(w, h, LinePoint(p, q, i)) && Tints(w, LinePoint(p, q, i), x, y)
  }

  lemma LineLightsIs(w: int, h: int, p: Point, q: Point, n: nat, x: int, y: int)
    requires Slanted(p, q) && 0 < w && w % 2 == 0
    ensures 0 <= x < w ==> (LumaOfLine(w, h, p, q, n, y * w + x) <==> LineLights(w, h, p, q, n, x, y))
    ensures 0 <= x < w / 2 ==> (ChromaOfLine(w, h, p, q, n, w * h + y * w + 2 * x) <==> LineTints(w, h, p, q, n, x, y))
  {
    hide LinePoint, LumaAt, ChromaAt, Lights, Tints;
    forall i | 0 <= i < n && Accepted(w, h, LinePoint(p, q, i))
      ensures 0 <= x < w ==> (LumaAt(w, LinePoint(p, q, i)) == y * w + x <==> Lights(w, LinePoint(p, q, i), x, y))
      ensures 0 <= x < w / 2 ==>
              (ChromaAt(w, h, LinePoint(p, q, i)) == w * h + y * w + 2 * x <==> Tints(w, LinePoint(p, q, i), x, y))
    {
      if 0 <= x < w {
        LumaPixel(w, h, LinePoint(p, q, i), x, y);
      }
      if 0 <= x < w / 2 {
        ChromaBlock(w, h, LinePoint(p, q, i), x, y);
      }
    }
  }

  lemma LinePixel(
    img: seq<bv8>, w: int, h: int, p: Point, q: Point, c: Color, n: nat, x: int, y: int, j: int)
    requires Memory(|img|, w, h) && WritableLine(|img|, w, h, p, q) && n <= Steps(p, q) + 1 && DrawableLine(w, h, p, q)
    requires 0 <= x < w && 0 <= y < h && j == y * w + x
    ensures 0 <= j < |img|
    ensures PlotLine(img, w, h, p, q, c, n)[j] == if LineLights(w, h, p, q, n, x, y) then c.y else img[j]
  {
    assert Slanted(p, q) && 0 < w && w % 2 == 0;
    hide PlotLine, LineLights, LineTints, LumaOfLine, ChromaOfLine, Steps, WritableLine, DrawableLine;
    hide Memory;
    PixelFits(|img|, w, h, x, y);
    LineLightsIs(w, h, p, q, n, x, y);
    LineBytes(img, w, h, p, q, c, n, j);
  }

  lemma LineBlock(
    img: seq<bv8>, w: int, h: int, p: Point, q: Point, c: Color, n: nat, x: int, y: int, k: int)
    requires Memory(|img|, w, h) && WritableLine(|img|, w, h, p, q) && n <= Steps(p, q) + 1 && DrawableLine(w, h, p, q)
    requires 0 <= x < w / 2 && 0 <= y < h / 2 && k == w * h + y * w + 2 * x
    ensures 0 <= k && k + 1 < |img|
    ensures PlotLine(img, w, h, p, q, c, n)[k] == (if LineTints(w, h, p, q, n, x, y) then c.u else img[k])
    ensures PlotLine(img, w, h, p, q, c, n)[k + 1] == (if LineTints(w, h, p, q, n, x, y) then c.v else img[k + 1])
  {
    assert Slanted(p, q) && 0 < w && w % 2 == 0;
    hide PlotLine, LineLights, LineTints, LumaOfLine, ChromaOfLine, Steps, WritableLine, DrawableLine;
    PixelFits(|img|, w, h, 0, 0);
    hide Memory;
    BlockFits(|img|, w, h, x, y);
    LineLightsIs(w, h, p, q, n, x, y);
    LinePair(img, w, h, p, q, c, n, w * h, k);
  }

  lemma LinePair(
    img: seq<bv8>, w: int, h: int, p: Point, q: Point, c: Color, n: nat, area: int, k: int)
    requires Memory(|img|, w, h) && WritableLine(|img|, w, h, p, q) && n <= Steps(p, q) + 1 && DrawableLine(w, h, p, q)
    requires area == w * h && 0 <= area <= k && k + 1 < |img| && k % 2 == 0
    ensures PlotLine(img, w, h, p, q, c, n)[k] == (if ChromaOfLine(w, h, p, q, n, k) then c.u else img[k])
    ensures PlotLine(img, w, h, p, q, c, n)[k + 1] == (if ChromaOfLine(w, h, p, q, n, k) then c.v else img[k + 1])
  {
    hide PlotLine, LumaOfLine, ChromaOfLine, Memory, WritableLine, DrawableLine;
    LineBytes(img, w, h, p, q, c, n, k);
    LineBytes(img, w, h, p, q, c, n, k + 1);
    assert k + 1 - 1 == k;
  }

  /** The picture after a slanted line: a pixel's luma is the colour's if and only if a visible point of the line has
      its even coordinates, a block's chroma if and only if one lies in the block; all others are as before. */
  lemma LineColours(img: seq<bv8>, w: int, h: int, p: Point, q: Point, c: Color, n: nat, x: int, y: int)
    requires Memory(|img|, w, h) && WritableLine(|img|, w, h, p, q) && n <= Steps(p, q) + 1 && DrawableLine(w, h, p, q)
    ensures 0 <= x < w && 0 <= y < h ==>
            && 0 <= y * w + x < |img|
            && PlotLine(img, w, h, p, q, c, n)[y * w + x] ==
               if LineLights(w, h, p, q, n, x, y) then c.y else img[y * w + x]
    ensures 0 <= x < w / 2 && 0 <= y < h / 2 ==>
            var k := w * h + y * w + 2 * x;
            && 0 <= k && k + 1 < |img|
            && PlotLine(img, w, h, p, q, c, n)[k] == (if LineTints(w, h, p, q, n, x, y) then c.u else img[k])
            && PlotLine(img, w, h, p, q, c, n)[k + 1] == (if LineTints(w, h, p, q, n, x, y) then c.v else img[k + 1])
  {
    hide PlotLine, LineLights, LineTints, Steps, WritableLine, DrawableLine;
    if 0 <= x < w && 0 <= y < h {
      LinePixel(img, w, h, p, q, c, n, x, y, y * w + x);
    }
    if 0 <= x < w / 2 && 0 <= y < h / 2 {
      LineBlock(img, w, h, p, q, c, n, x, y, w * h + y * w + 2 * x);
    }
  }

  /** r is one of the n points behind p, downwards or to the right. */
  predicate OnRun(p: Point, down: bool, n: nat, r: Point) {
    if down then r.x == p.x && p.y < r.y <= p.y + n else r.y == p.y && p.x < r.x <= p.x + n
  }

  ghost predicate RunLights(w: int, h: int, p: Point, down: bool, n: nat, x: int, y: int) {
    exists r :: OnRun(p, down, n, r) && Accepted(w, h, r) && Lights(w, r, x, y)
  }

  ghost predicate RunTints(w: int, h: int, p: Point, down: bool, n: nat, x: int, y: int) {
    exists r :: OnRun(p, down, n, r) && Accepted(w, h, r) && Tints(w, r, x, y)
  }

  ghost predicate DrawableRun(w: int, h: int, p: Point, down: bool, n: nat) {
    forall r :: OnRun(p, down, n, r) ==> Drawable(w, h, r)
  }

  lemma RunGrows(w: int, h: int, p: Point, down: bool, n: nat, x: int, y: int)
    requires n > 0
    ensures var r := RunPoint(p, down, n);
            && OnRun(p, down, n, r)
            && (RunLights(w, h, p, down, n, x, y) <==>
                  RunLights(w, h, p, down, n - 1, x, y) || (Accepted(w, h, r) && Lights(w, r, x, y)))
            && (RunTints(w, h, p, down, n, x, y) <==>
                  RunTints(w, h, p, down, n - 1, x, y) || (Accepted(w, h, r) && Tints(w, r, x, y)))
  {
    hide Lights, Tints, Accepted;
    var last := RunPoint(p, down, n);
    forall r
      ensures OnRun(p, down, n, r) <==> OnRun(p, down, n - 1, r) || r == last
    {
    }
  }

  /** The same for vertical and horizontal lines. */
  lemma {:induction false} RunColours(
    img: seq<bv8>, w: int, h: int, p: Point, down: bool, c: Color, n: nat, x: int, y: int)
    requires Memory(|img|, w, h) && WritableRun(|img|, w, h, p, down, n) && DrawableRun(w, h, p, down, n)
    ensures 0 <= x < w && 0 <= y < h ==>
            && 0 <= y * w + x < |img|
            && PlotRun(img, w, h, p, down, c, n)[y * w + x] ==
               if RunLights(w, h, p, down, n, x, y) then c.y else img[y * w + x]
    ensures 0 <= x < w / 2 && 0 <= y < h / 2 ==>
            var k := w * h + y * w + 2 * x;
            && 0 <= k && k + 1 < |img|
            && PlotRun(img, w, h, p, down, c, n)[k] == (if RunTints(w, h, p, down, n, x, y) then c.u else img[k])
            && PlotRun(img, w, h, p, down, c, n)[k + 1] ==
               (if RunTints(w, h, p, down, n, x, y) then c.v else img[k + 1])
  {
    hide Plot, Lights, Tints, Writable, Drawable, Accepted;
    if n == 0 {
      if 0 <= x < w && 0 <= y < h {
        PixelFits(|img|, w, h, x, y);
      }
      if 0 <= x < w / 2 && 0 <= y < h / 2 {
        BlockFits(|img|, w, h, x, y);
      }
    } else {
      RunColours(img, w, h, p, down, c, n - 1, x, y);
      RunGrows(w, h, p, down, n, x, y);
      PointColours(PlotRun(img, w, h, p, down, c, n - 1), w, h, RunPoint(p, down, n), c, x, y);
    }
  }

  /** How far the straight loops get: to the frame's edge, the line beyond it included, and nowhere if the point after
      the first end is outside. */
  lemma {:induction false} LeadingExactly(w: int, h: int, p: Point, n: nat)
    requires 0 < w && 0 < h
    ensures Leading(w, h, p, true, n) ==
            if 0 <= p.x <= w && 0 <= p.y + 1 <= h then Min(n, h - p.y) else 0
    ensures Leading(w, h, p, false, n) ==
            if 0 <= p.y <= h && 0 <= p.x + 1 <= w then Min(n, w - p.x) else 0
  {
    if n > 0 {
      LeadingExactly(w, h, p, n - 1);
    }
  }

  lemma ColumnLights(w: int, h: int, p: Point, n: nat, x: int, y: int)
    requires 0 <= p.x < w && 0 <= p.y && p.y + n < h && n > 0
    ensures RunLights(w, h, p, true, n, x, y) <==> x == p.x - p.x % 2 && y % 2 == 0 && p.y <= y <= p.y + n
  {
    if x == p.x - p.x % 2 && y % 2 == 0 && p.y <= y <= p.y + n {
      var r := Point(p.x, if y > p.y then y else y + 1);
      assert OnRun(p, true, n, r) && Accepted(w, h, r) && Lights(w, r, x, y);
    }
  }

  lemma RowLights(w: int, h: int, p: Point, n: nat, x: int, y: int)
    requires 0 <= p.y < h && 0 <= p.x && p.x + n < w && n > 0
    ensures RunLights(w, h, p, false, n, x, y) <==> y == p.y - p.y % 2 && x % 2 == 0 && p.x <= x <= p.x + n
  {
    if y == p.y - p.y % 2 && x % 2 == 0 && p.x <= x <= p.x + n {
      var r := Point(if x > p.x then x else x + 1, p.y);
      assert OnRun(p, false, n, r) && Accepted(w, h, r) && Lights(w, r, x, y);
    }
  }

  /** A vertical line between two points of the frame: the even rows from one end to the other, in its own column or the
      even one before. */
  lemma VerticalPixels(img: seq<bv8>, w: int, h: int, a: Point, b: Point, c: Color, x: int, y: int)
    requires Memory(|img|, w, h) && WritableBetween(|img|, w, h, a, b)
    requires 0 <= a.x == b.x < w && 0 <= a.y < h && 0 <= b.y < h && a.y != b.y && 0 <= x < w && 0 <= y < h
    ensures 0 <= y * w + x < |img|
    ensures LineDrawn(img, w, h, a, b, c)[y * w + x] ==
            if x == a.x - a.x % 2 && y % 2 == 0 && (a.y <= y <= b.y || b.y <= y <= a.y) then c.y else img[y * w + x]
  {
    hide Plot, Leading, PlotRun, Memory, Writable, RunLights, RunTints;
    var top, n := Point(a.x, Min(a.y, b.y)), Abs(b.y - a.y);
    LeadingExactly(w, h, top, n);
    RunColours(img, w, h, top, true, c, n, x, y);
    ColumnLights(w, h, top, n, x, y);
  }

  lemma HorizontalPixels(img: seq<bv8>, w: int, h: int, a: Point, b: Point, c: Color, x: int, y: int)
    requires Memory(|img|, w, h) && WritableBetween(|img|, w, h, a, b)
    requires 0 <= a.y == b.y < h && 0 <= a.x < w && 0 <= b.x < w && a.x != b.x && 0 <= x < w && 0 <= y < h
    ensures 0 <= y * w + x < |img|
    ensures LineDrawn(img, w, h, a, b, c)[y * w + x] ==
            if y == a.y - a.y % 2 && x % 2 == 0 && (a.x <= x <= b.x || b.x <= x <= a.x) then c.y else img[y * w + x]
  {
    hide Plot, Leading, PlotRun, Memory, Writable, RunLights, RunTints;
    var (p, q) := LeftFirst(a, b);
    var n := q.x - p.x;
    LeadingExactly(w, h, p, n);
    RunColours(img, w, h, p, false, c, n, x, y);
    RowLights(w, h, p, n, x, y);
  }
}
