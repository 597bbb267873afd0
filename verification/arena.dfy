/** The arena floor of arena.js: the platform radius, the size of the trail
    canvas, the mapping from floor coordinates to texture coordinates, and the
    grid of tiles that paints the sand image into the trail canvas. */
module Arena {

  /** Radius of the circular tower platform, in world units. */
  const Radius: real := 35.0

  /** Width and height of the square trail canvas, in pixels. */
  const TrailCanvasSize: int := 512

  /** A point of the floor texture: u follows world x, v follows world z. */
  datatype UV = UV(u: real, v: real)

  /** The floor point (x, z) that a texture point stands for. */
  function UVToWorld(uv: UV): (p: (real, real))
    ensures uv.u < 0.5 <==> p.0 < 0.0
    ensures uv.v < 0.5 <==> p.1 < 0.0
  {
    ((uv.u - 0.5) * (Radius * 2.0), (uv.v - 0.5) * (Radius * 2.0))
  }

  /** worldToUV: the platform's diameter becomes the unit interval, centred
      on 0.5; UVToWorld undoes it exactly. */
  function WorldToUV(x: real, z: real): (uv: UV)
    ensures UVToWorld(uv) == (x, z)
  {
    UV(x / (Radius * 2.0) + 0.5, z / (Radius * 2.0) + 0.5)
  }

  /** The converse round trip: every texture point is the image of a floor point. */
  lemma UVRoundTrip(uv: UV)
    ensures WorldToUV(UVToWorld(uv).0, UVToWorld(uv).1) == uv
  {
  }

  /** The platform's centre maps to the texture's centre, and the two ends of
      the x diameter to the left and right edges. */
  lemma WorldToUVLandmarks()
    ensures WorldToUV(0.0, 0.0) == UV(0.5, 0.5)
    ensures WorldToUV(Radius, 0.0) == UV(1.0, 0.5)
    ensures WorldToUV(-Radius, 0.0) == UV(0.0, 0.5)
  {
  }

  /** u depends on x alone and v on z alone, and each strictly increases with
      its coordinate. */
  lemma WorldToUVMonotone(x1: real, z1: real, x2: real, z2: real)
    ensures WorldToUV(x1, z1).u == WorldToUV(x1, z2).u
    ensures WorldToUV(x1, z1).v == WorldToUV(x2, z1).v
    ensures x1 < x2 <==> WorldToUV(x1, z1).u < WorldToUV(x2, z2).u
    ensures z1 < z2 <==> WorldToUV(x1, z1).v < WorldToUV(x2, z2).v
  {
  }

  lemma ProductSign(a: real, b: real)
    ensures a > 0.0 && b > 0.0 ==> a * b > 0.0
    ensures a >= 0.0 && b >= 0.0 ==> a * b >= 0.0
  {
  }

  lemma FactorSign(x: real, y: real)
    ensures x * y <= 0.0 && y > 0.0 ==> x <= 0.0
  {
  }

  /** A coordinate whose square is at most r * r lies in [-r, r]. */
  lemma SquareBound(a: real, r: real)
    requires r >= 0.0 && a * a <= r * r
    ensures -r <= a <= r
  {
    var s := if a < 0.0 then -a else a;
    assert s * s == a * a;
    assert (s - r) * (s + r) == s * s - r * r;
    FactorSign(s - r, s + r);
  }

  /** Every point of the platform disc lands inside the unit texture square. */
  lemma PlatformMapsIntoUnitSquare(x: real, z: real)
    requires x * x + z * z <= Radius * Radius
    ensures 0.0 <= WorldToUV(x, z).u <= 1.0
    ensures 0.0 <= WorldToUV(x, z).v <= 1.0
  {
    assert x * x <= Radius * Radius by { assert z * z >= 0.0; }
    assert z * z <= Radius * Radius by { assert x * x >= 0.0; }
    SquareBound(x, Radius);
    SquareBound(z, Radius);
  }

  // ---------------------------------------------------------------------
  // fillCanvasWithRepeatedImage

  /** An axis-aligned rectangle covering [x, x + w) by [y, y + h). */
  datatype Rect = Rect(x: real, y: real, w: real, h: real)
  {
    predicate Contains(px: real, py: real) {
      x <= px < x + w && y <= py < y + h
    }
  }

  /** The image being drawn, by its natural size. */
  datatype Image = Image(width: real, height: real)

  /** One drawImage call: the source rectangle of the image scaled into the
      destination rectangle of the canvas. */
  datatype DrawCall = DrawCall(image: Image, src: Rect, dst: Rect)

  /** The call that draws the whole image as tile (x, y) of an n by n grid
      over a square canvas of side canvasSize. */
  function Tile(img: Image, canvasSize: real, n: nat, x: int, y: int): DrawCall
    requires n > 0
  {
    var tileSize := canvasSize / n as real;
    DrawCall(img, Rect(0.0, 0.0, img.width, img.height),
             Rect(x as real * tileSize, y as real * tileSize, tileSize, tileSize))
  }

  /** The first `count` tiles of row y, left to right. */
  function RowTiles(img: Image, canvasSize: real, n: nat, y: int, count: nat): seq<DrawCall>
    requires n > 0
  {
    if count == 0 then []
    else RowTiles(img, canvasSize, n, y, count - 1) + [Tile(img, canvasSize, n, count - 1, y)]
  }

  /** The first `rows` complete rows of the grid, top to bottom. */
  function GridRows(img: Image, canvasSize: real, n: nat, rows: nat): seq<DrawCall>
    requires n > 0
  {
    if rows == 0 then []
    else GridRows(img, canvasSize, n, rows - 1) + RowTiles(img, canvasSize, n, rows - 1, n)
  }

  /** Every draw of an n by n grid, in row-major order (an empty grid when
      the repeat count is not positive, as the loops then never run). */
  function TileGrid(img: Image, canvasSize: real, n: nat): seq<DrawCall>
  {
    if n == 0 then [] else GridRows(img, canvasSize, n, n)
  }

  /** Paints `img` repeated repeatCount times in each direction over the
      canvas: row y outside, column x inside, one draw per tile. */
  method FillCanvasWithRepeatedImage(img: Image, canvasSize: real, repeatCount: int)
    returns (draws: seq<DrawCall>)
    ensures draws == TileGrid(img, canvasSize, if repeatCount > 0 then repeatCount else 0)
  {
    draws := [];
    if repeatCount <= 0 {
      return;
    }
    var tileSize := canvasSize / repeatCount as real;
    var y := 0;
    while y < repeatCount
      invariant 0 <= y <= repeatCount
      invariant draws == GridRows(img, canvasSize, repeatCount, y)
    {
      var x := 0;
      while x < repeatCount
        invariant 0 <= x <= repeatCount
        invariant draws == GridRows(img, canvasSize, repeatCount, y)
                           + RowTiles(img, canvasSize, repeatCount, y, x)
      {
        draws := draws + [DrawCall(img, Rect(0.0, 0.0, img.width, img.height),
                                   Rect(x as real * tileSize, y as real * tileSize, tileSize, tileSize))];
        assert draws[|draws| - 1] == Tile(img, canvasSize, repeatCount, x, y);
        assert RowTiles(img, canvasSize, repeatCount, y, x + 1)
            == RowTiles(img, canvasSize, repeatCount, y, x) + [Tile(img, canvasSize, repeatCount, x, y)];
        x := x + 1;
      }
      assert GridRows(img, canvasSize, repeatCount, y + 1)
          == GridRows(img, canvasSize, repeatCount, y) + RowTiles(img, canvasSize, repeatCount, y, repeatCount);
      y := y + 1;
    }
  }

  lemma {:induction false} RowTilesLayout(img: Image, canvasSize: real, n: nat, y: int, count: nat)
    requires n > 0
    ensures |RowTiles(img, canvasSize, n, y, count)| == count
    ensures forall x :: 0 <= x < count ==>
              RowTiles(img, canvasSize, n, y, count)[x] == Tile(img, canvasSize, n, x, y)
  {
    if count > 0 {
      RowTilesLayout(img, canvasSize, n, y, count - 1);
    }
  }

  lemma {:induction false} GridRowsLength(img: Image, canvasSize: real, n: nat, rows: nat)
    requires n > 0
    ensures |GridRows(img, canvasSize, n, rows)| == rows * n
  {
    if rows > 0 {
      GridRowsLength(img, canvasSize, n, rows - 1);
      RowTilesLayout(img, canvasSize, n, rows - 1, n);
      assert rows * n == (rows - 1) * n + n;
    }
  }

  lemma {:induction false} GridRowsAt(img: Image, canvasSize: real, n: nat, rows: nat, x: nat, y: nat)
    requires n > 0 && x < n && y < rows
    ensures y * n + x < |GridRows(img, canvasSize, n, rows)|
    ensures GridRows(img, canvasSize, n, rows)[y * n + x] == Tile(img, canvasSize, n, x, y)
  {
    var prefix := GridRows(img, canvasSize, n, rows - 1);
    var last := RowTiles(img, canvasSize, n, rows - 1, n);
    assert GridRows(img, canvasSize, n, rows) == prefix + last;
    if y < rows - 1 {
      GridRowsAt(img, canvasSize, n, rows - 1, x, y);
      ConcatLeft(prefix, last, y * n + x);
    } else {
      GridRowsLength(img, canvasSize, n, rows - 1);
      RowTilesLayout(img, canvasSize, n, rows - 1, n);
      ConcatRight(prefix, last, x);
    }
  }

  lemma ConcatLeft<T>(a: seq<T>, b: seq<T>, k: int)
    requires 0 <= k < |a|
    ensures k < |a + b| && (a + b)[k] == a[k]
  {
  }

  lemma ConcatRight<T>(a: seq<T>, b: seq<T>, j: int)
    requires 0 <= j < |b|
    ensures |a| + j < |a + b| && (a + b)[|a| + j] == b[j]
  {
  }

  /** The fill issues exactly n * n draws. */
  lemma TileGridLength(img: Image, canvasSize: real, n: nat)
    ensures |TileGrid(img, canvasSize, n)| == n * n
  {
    if n > 0 {
      GridRowsLength(img, canvasSize, n, n);
    }
  }

  /** Draw number y * n + x is the whole image scaled into tile (x, y): rows
      are drawn top to bottom and each row left to right. */
  lemma TileGridAt(img: Image, canvasSize: real, n: nat, x: int, y: int)
    requires 0 <= x < n && 0 <= y < n
    ensures y * n + x < |TileGrid(img, canvasSize, n)|
    ensures TileGrid(img, canvasSize, n)[y * n + x] == Tile(img, canvasSize, n, x, y)
  {
    GridRowsAt(img, canvasSize, n, n, x, y);
  }

  /** Every draw of a row takes the whole image as its source. */
  lemma {:induction false} RowTilesSource(img: Image, canvasSize: real, n: nat, y: int, count: nat)
    requires n > 0
    ensures forall d :: d in RowTiles(img, canvasSize, n, y, count) ==>
              d.image == img && d.src == Rect(0.0, 0.0, img.width, img.height)
  {
    if count > 0 {
      RowTilesSource(img, canvasSize, n, y, count - 1);
    }
  }

  /** Every draw of the first `rows` rows takes the whole image as its source. */
  lemma {:induction false} GridRowsSource(img: Image, canvasSize: real, n: nat, rows: nat)
    requires n > 0
    ensures forall d :: d in GridRows(img, canvasSize, n, rows) ==>
              d.image == img && d.src == Rect(0.0, 0.0, img.width, img.height)
  {
    if rows > 0 {
      GridRowsSource(img, canvasSize, n, rows - 1);
      RowTilesSource(img, canvasSize, n, rows - 1, n);
    }
  }

  /** A fill draws nothing but `img`, always taken whole: an image that
      reports a zero width and height (one not loaded yet) therefore gives
      every draw of the fill an empty source rectangle. */
  lemma TileGridSource(img: Image, canvasSize: real, n: nat)
    ensures forall d :: d in TileGrid(img, canvasSize, n) ==>
              d.image == img && d.src == Rect(0.0, 0.0, img.width, img.height)
  {
    if n > 0 {
      GridRowsSource(img, canvasSize, n, n);
    }
  }

  /** Every tile is a square of side canvasSize / n; the last one in each
      direction ends exactly at the canvas edge. */
  lemma TileGeometry(img: Image, canvasSize: real, n: nat, x: int, y: int)
    requires n > 0
    ensures Tile(img, canvasSize, n, x, y).dst.w == Tile(img, canvasSize, n, x, y).dst.h
    ensures Tile(img, canvasSize, n, x, y).dst.w * n as real == canvasSize
    ensures Tile(img, canvasSize, n, n - 1, n - 1).dst.x + Tile(img, canvasSize, n, n - 1, n - 1).dst.w == canvasSize
    ensures Tile(img, canvasSize, n, n - 1, n - 1).dst.y + Tile(img, canvasSize, n, n - 1, n - 1).dst.h == canvasSize
  {
    var t := canvasSize / n as real;
    assert t * n as real == canvasSize;
    assert (n - 1) as real * t + t == n as real * t;
  }

  lemma NextMultiple(m: nat, t: real)
    ensures (m + 1) as real * t == m as real * t + t
  {
  }

  /** The cell of a row of n cells of width t that holds a coordinate p,
      found by walking down from the last cell. */
  lemma {:induction false} CellOf(t: real, n: nat, p: real) returns (i: int)
    requires t > 0.0 && 0.0 <= p < n as real * t
    ensures 0 <= i < n
    ensures i as real * t <= p < i as real * t + t
    decreases n
  {
    if n == 0 {
      assert false;
    }
    var m := n - 1;
    NextMultiple(m, t);
    if p < m as real * t {
      i := CellOf(t, m, p);
    } else {
      i := m;
    }
  }

  /** Two cells of width t that share a point start less than one cell
      apart. */
  lemma SharedPointCells(a: real, b: real, t: real, p: real)
    requires t > 0.0
    requires a * t <= p < a * t + t
    requires b * t <= p < b * t + t
    ensures a < b + 1.0 && b < a + 1.0
  {
    ProductSign(a - b - 1.0, t);
    assert (a - b - 1.0) * t == a * t - b * t - t;
    ProductSign(b - a - 1.0, t);
    assert (b - a - 1.0) * t == b * t - a * t - t;
  }

  /** Cells of width t with distinct indices do not overlap. */
  lemma CellsDisjoint(t: real, a: int, b: int, p: real)
    requires t > 0.0
    requires a as real * t <= p < a as real * t + t
    requires b as real * t <= p < b as real * t + t
    ensures a == b
  {
    SharedPointCells(a as real, b as real, t, p);
  }

  /** Every pixel of the canvas lies in some tile of the grid. */
  lemma TilesCoverCanvas(img: Image, canvasSize: real, n: nat, px: real, py: real)
    requires n > 0 && canvasSize > 0.0
    requires 0.0 <= px < canvasSize && 0.0 <= py < canvasSize
    ensures exists x, y :: 0 <= x < n && 0 <= y < n && Tile(img, canvasSize, n, x, y).dst.Contains(px, py)
  {
    var t := canvasSize / n as real;
    assert n as real * t == canvasSize;
    var x := CellOf(t, n, px);
    var y := CellOf(t, n, py);
    assert Tile(img, canvasSize, n, x, y).dst.Contains(px, py);
  }

  /** Cell i of a row of n cells of width t, starting at lo, lies within
      [0, total] where total is n * t. */
  lemma CellInside(t: real, n: nat, i: nat, lo: real, total: real)
    requires t > 0.0 && i < n
    requires lo == i as real * t && total == n as real * t
    ensures 0.0 <= lo && lo + t <= total
  {
    ProductSign(i as real, t);
    NextMultiple(i, t);
    var rest := (n - i - 1) as real;
    ProductSign(rest, t);
    assert n as real * t == (i + 1) as real * t + rest * t;
  }

  /** Every point of every tile of the grid lies on the canvas: together
      with TilesCoverCanvas, the tiles cover exactly [0, canvasSize)^2. */
  lemma TilesInsideCanvas(img: Image, canvasSize: real, n: nat, x: int, y: int, px: real, py: real)
    requires n > 0 && canvasSize > 0.0
    requires 0 <= x < n && 0 <= y < n
    requires Tile(img, canvasSize, n, x, y).dst.Contains(px, py)
    ensures 0.0 <= px < canvasSize && 0.0 <= py < canvasSize
  {
    var t := canvasSize / n as real;
    assert n as real * t == canvasSize;
    var d := Tile(img, canvasSize, n, x, y).dst;
    CellInside(t, n, x, d.x, canvasSize);
    CellInside(t, n, y, d.y, canvasSize);
  }

  /** No pixel lies in two different tiles. */
  lemma TilesDisjoint(img: Image, canvasSize: real, n: nat, x1: int, y1: int, x2: int, y2: int, px: real, py: real)
    requires n > 0 && canvasSize > 0.0
    requires Tile(img, canvasSize, n, x1, y1).dst.Contains(px, py)
    requires Tile(img, canvasSize, n, x2, y2).dst.Contains(px, py)
    ensures x1 == x2 && y1 == y2
  {
    var t := canvasSize / n as real;
    CellsDisjoint(t, x1, x2, px);
    CellsDisjoint(t, y1, y2, py);
  }
}
