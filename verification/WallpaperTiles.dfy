/** Where the pieces of a wallpaper go, as CSS Backgrounds and Borders Level 3 places them (section 2.4,
    background-repeat, and section 2.9, background-size).  Lengths are real numbers. */
module WallpaperTiles {
  import opened Rounding

  datatype Fit = Cover | Contain | Tile

  datatype Rect = Rect(x: real, y: real, width: real, height: real)

  const MAX_TILES := 4000

  // ----- rounding -----

  function Ceil(x: real): (n: int)
    ensures (n - 1) as real < x <= n as real
  {
    -((-x).Floor)
  }

  /** The remainder operator of JavaScript: it has the sign of the dividend. */
  function Rem(a: real, b: real): real
    requires b != 0.0
  {
    a - Trunc(a / b) as real * b
  }

  lemma Quotient(a: real, b: real)
    requires b > 0.0
    ensures a / b * b == a
    ensures a >= 0.0 <==> a / b >= 0.0
  {
  }

  lemma Positive(a: real, b: real)
    requires a > 0.0 && b > 0.0
    ensures a * b > 0.0
  {
  }

  lemma Scale(a: real, b: real, w: real)
    requires w > 0.0
    ensures a <= b <==> a * w <= b * w
    ensures a < b <==> a * w < b * w
  {
    assert (b - a) * w == b * w - a * w;
    if b > a {
      Positive(b - a, w);
    } else if b < a {
      Positive(a - b, w);
      assert (a - b) * w == a * w - b * w;
    }
  }

  /** Comparing a quotient is comparing with a multiple. */
  lemma Compare(d: real, w: real, c: real)
    requires w > 0.0
    ensures d / w < c <==> d < c * w
    ensures d / w <= c <==> d <= c * w
  {
    Quotient(d, w);
    Scale(d / w, c, w);
  }

  lemma Distribute(i: int, w: real)
    ensures (i + 1) as real * w == i as real * w + w
  {
    var r := i as real;
    assert (i + 1) as real == r + 1.0;
    assert (r + 1.0) * w == r * w + w;
  }

  // ----- one axis -----

  /** The first tile coordinate of an axis, and how many tiles start in front of the far edge. */
  function Start(length: real, tile: real): real
    requires tile > 0.0
  {
    Rem((length - tile) / 2.0, tile) - tile
  }

  function Across(length: real, tile: real): int
    requires tile > 0.0
  {
    Ceil((length - Start(length, tile)) / tile)
  }

  function Estimate(length: real, tile: real): int
    requires tile > 0.0
  {
    Ceil(length / tile) + 1
  }

  function At(length: real, tile: real, i: int): real
    requires tile > 0.0
  {
    Start(length, tile) + i as real * tile
  }

  /** The whole tiles between the near edge and the centred tile, never negative. */
  lemma Offset(length: real, tile: real) returns (t: int)
    requires length > 0.0 && tile > 0.0
    ensures t == Trunc((length - tile) / 2.0 / tile) >= 0
    ensures Start(length, tile) == (length - tile) / 2.0 - t as real * tile - tile
    ensures length >= tile ==> t as real * tile <= (length - tile) / 2.0 < t as real * tile + tile
    ensures length < tile ==> t == 0
  {
    var a := (length - tile) / 2.0;
    t := Trunc(a / tile);
    Compare(a, tile, 0.0);
    if a >= 0.0 {
      Compare(a, tile, t as real);
      Compare(a, tile, (t + 1) as real);
      Distribute(t, tile);
    } else {
      Compare(a, tile, -1.0);
      assert -1.0 < a / tile < 0.0;
      assert (-(a / tile)).Floor == 0;
    }
  }

  /** The centred tile is the one with index Trunc + 1. */
  lemma CentredTile(length: real, tile: real)
    requires length > 0.0 && tile > 0.0
    ensures var i := Trunc((length - tile) / 2.0 / tile) + 1;
            i >= 1 && At(length, tile, i) == (length - tile) / 2.0
  {
    var t := Offset(length, tile);
    Distribute(t, tile);
  }

  /** The first tile begins in front of the near edge, by less than two tiles. */
  lemma StartBounds(length: real, tile: real)
    requires length > 0.0 && tile > 0.0
    ensures -2.0 * tile < Start(length, tile) < 0.0
    ensures length >= tile ==> -tile <= Start(length, tile)
    ensures length < tile ==> Start(length, tile) == (length - tile) / 2.0 - tile
  {
    var t := Offset(length, tile);
    if length < tile {
      assert 0.0 * tile == 0.0;
    }
  }

  /** A coordinate lies in the tile with index n exactly when n is its offset in whole tiles. */
  lemma TileOf(length: real, tile: real, x: real, i: int)
    requires tile > 0.0
    ensures At(length, tile, i) <= x < At(length, tile, i) + tile <==> i == ((x - Start(length, tile)) / tile).Floor
  {
    var d := x - Start(length, tile);
    var q := d / tile;
    Compare(d, tile, i as real);
    Compare(d, tile, (i + 1) as real);
    Distribute(i, tile);
    assert i as real <= q < (i + 1) as real <==> i == q.Floor;
  }

  lemma InFront(length: real, tile: real, i: int)
    requires tile > 0.0
    ensures At(length, tile, i) < length <==> i < Across(length, tile)
  {
    Compare(length - Start(length, tile), tile, i as real);
  }

  /** Exactly one tile of the axis holds a coordinate inside the viewport. */
  lemma OneTile(length: real, tile: real, x: real) returns (i: int)
    requires tile > 0.0 && 0.0 <= x < length
    ensures 0 <= i < Across(length, tile) && At(length, tile, i) <= x < At(length, tile, i) + tile
    ensures forall j: int {:trigger At(length, tile, j)} :: At(length, tile, j) <= x < At(length, tile, j) + tile ==> j == i
  {
    StartBounds(length, tile);
    var q := (x - Start(length, tile)) / tile;
    i := q.Floor;
    Compare(x - Start(length, tile), tile, 0.0);
    TileOf(length, tile, x, i);
    InFront(length, tile, i);
    forall j: int | At(length, tile, j) <= x < At(length, tile, j) + tile
      ensures j == i
    {
      TileOf(length, tile, x, j);
    }
  }

  lemma CeilBounds(d: real, tile: real, n: int)
    requires tile > 0.0
    ensures d > 0.0 ==> Ceil(d / tile) >= 1
    ensures d <= n as real * tile ==> Ceil(d / tile) <= n
    ensures d <= Ceil(d / tile) as real * tile
  {
    Compare(d, tile, 0.0);
    Compare(d, tile, n as real);
    Compare(d, tile, Ceil(d / tile) as real);
  }

  /** The estimate that the limit is checked against is never too small. */
  lemma EstimateHolds(length: real, tile: real)
    requires length > 0.0 && tile > 0.0
    ensures 1 <= Across(length, tile) <= Estimate(length, tile)
  {
    StartBounds(length, tile);
    var d, n := length - Start(length, tile), Ceil(length / tile);
    CeilBounds(length, tile, n);
    if length >= tile {
      Distribute(n, tile);
      CeilBounds(d, tile, n + 1);
    } else {
      assert d == length / 2.0 + 1.5 * tile < 2.0 * tile;
      CeilBounds(d, tile, 2);
    }
  }

  // ----- the grid -----

  function TileAt(w: real, h: real, width: real, height: real, k: nat, nx: nat): Rect
    requires w > 0.0 && h > 0.0 && nx > 0
  {
    Rect(At(width, w, k % nx), At(height, h, k / nx), w, h)
  }

  ghost predicate IsGrid(rects: seq<Rect>, w: real, h: real, width: real, height: real, nx: nat)
    requires w > 0.0 && h > 0.0 && nx > 0
  {
    forall k :: 0 <= k < |rects| ==> rects[k] == TileAt(w, h, width, height, k, nx)
  }

  lemma OffByWhole(d: int, n: int)
    requires n >= 0
    ensures d >= 1 ==> d * n >= n
    ensures d <= -1 ==> d * n <= -n
  {
    assert d >= 1 ==> (d - 1) * n >= 0;
    assert d <= -1 ==> (-1 - d) * n >= 0;
    assert (d - 1) * n == d * n - n && (-1 - d) * n == -n - d * n;
  }

  lemma Position(i: nat, j: nat, nx: nat)
    requires i < nx
    ensures (j * nx + i) / nx == j && (j * nx + i) % nx == i
  {
    var k := j * nx + i;
    var d := j - k / nx;
    assert k == k / nx * nx + k % nx;
    assert d * nx == j * nx - k / nx * nx;
    OffByWhole(d, nx);
  }

  lemma InGrid(i: nat, j: nat, nx: nat, ny: nat)
    requires i < nx && j < ny
    ensures j * nx + i < nx * ny
  {
    assert (ny - 1 - j) * nx >= 0;
    assert (ny - 1 - j) * nx == ny * nx - nx - j * nx;
  }

  predicate Holds(r: Rect, x: real, y: real) {
    r.x <= x < r.x + r.width && r.y <= y < r.y + r.height
  }

  ghost predicate CoversOnce(rects: seq<Rect>, width: real, height: real) {
    forall x: real, y: real :: 0.0 <= x < width && 0.0 <= y < height ==> HeldOnce(rects, x, y)
  }

  ghost predicate HeldOnce(rects: seq<Rect>, x: real, y: real) {
    exists k :: 0 <= k < |rects| && Holds(rects[k], x, y) && forall l :: 0 <= l < |rects| && Holds(rects[l], x, y) ==> l == k
  }

  lemma PointHeldOnce(rects: seq<Rect>, w: real, h: real, width: real, height: real, nx: nat, ny: nat, x: real, y: real)
    requires w > 0.0 && h > 0.0 && 0.0 <= x < width && 0.0 <= y < height
    requires nx == Across(width, w) && ny == Across(height, h) && nx > 0
    requires |rects| == nx * ny && IsGrid(rects, w, h, width, height, nx)
    ensures HeldOnce(rects, x, y)
  {
    var i := OneTile(width, w, x);
    var j := OneTile(height, h, y);
    var k := j * nx + i;
    Position(i, j, nx);
    InGrid(i, j, nx, ny);
    assert rects[k] == TileAt(w, h, width, height, k, nx);
    forall l | 0 <= l < |rects| && Holds(rects[l], x, y)
      ensures l == k
    {
      assert rects[l] == TileAt(w, h, width, height, l, nx);
      assert l % nx == i && l / nx == j;
      assert l == l / nx * nx + l % nx;
    }
  }

  /** Every point of the viewport lies in exactly one tile. */
  lemma GridCoversOnce(rects: seq<Rect>, w: real, h: real, width: real, height: real, nx: nat, ny: nat)
    requires w > 0.0 && h > 0.0 && width > 0.0 && height > 0.0
    requires nx == Across(width, w) && ny == Across(height, h) && nx > 0
    requires |rects| == nx * ny && IsGrid(rects, w, h, width, height, nx)
    ensures CoversOnce(rects, width, height)
  {
    forall x: real, y: real | 0.0 <= x < width && 0.0 <= y < height
      ensures HeldOnce(rects, x, y)
    {
      PointHeldOnce(rects, w, h, width, height, nx, ny, x, y);
    }
  }

  predicate Centred(r: Rect, width: real, height: real) {
    r.x + r.width / 2.0 == width / 2.0 && r.y + r.height / 2.0 == height / 2.0
  }

  /** One tile sits exactly in the middle. */
  lemma GridIsCentred(rects: seq<Rect>, w: real, h: real, width: real, height: real, nx: nat, ny: nat) returns (k: nat)
    requires w > 0.0 && h > 0.0 && width > 0.0 && height > 0.0
    requires nx == Across(width, w) && ny == Across(height, h) && nx > 0
    requires |rects| == nx * ny && IsGrid(rects, w, h, width, height, nx)
    ensures k < |rects| && Centred(rects[k], width, height)
  {
    var i := Trunc((width - w) / 2.0 / w) + 1;
    var j := Trunc((height - h) / 2.0 / h) + 1;
    CentredTile(width, w);
    CentredTile(height, h);
    InFront(width, w, i);
    InFront(height, h, j);
    k := j * nx + i;
    Position(i, j, nx);
    InGrid(i, j, nx, ny);
  }

  /** The two loops of the tile branch. */
  method TileRects(w: real, h: real, width: real, height: real, ghost nx: nat, ghost ny: nat) returns (rects: seq<Rect>)
    requires w > 0.0 && h > 0.0 && width > 0.0 && height > 0.0
    requires nx == Across(width, w) && ny == Across(height, h) && nx > 0
    ensures |rects| == nx * ny && IsGrid(rects, w, h, width, height, nx)
  {
    rects := [];
    var y := Start(height, h);
    ghost var j := 0;
    while y < height
      invariant 0 <= j <= ny && y == At(height, h, j)
      invariant |rects| == j * nx && IsGrid(rects, w, h, width, height, nx)
      decreases ny - j
    {
      InFront(height, h, j);
      rects := AddRow(rects, w, h, width, height, y, nx, j);
      y := y + h;
      NextAt(height, h, j);
      assert (j + 1) * nx == j * nx + nx;
      j := j + 1;
    }
    InFront(height, h, j);
  }

  lemma NextAt(length: real, tile: real, i: int)
    requires tile > 0.0
    ensures At(length, tile, i + 1) == At(length, tile, i) + tile
  {
    Distribute(i, tile);
  }

  method AddRow(was: seq<Rect>, w: real, h: real, width: real, height: real, y: real, ghost nx: nat, ghost j: nat)
    returns (rects: seq<Rect>)
    requires w > 0.0 && h > 0.0 && width > 0.0 && nx == Across(width, w) && nx > 0
    requires |was| == j * nx && IsGrid(was, w, h, width, height, nx) && y == At(height, h, j)
    ensures |rects| == j * nx + nx && IsGrid(rects, w, h, width, height, nx)
  {
    rects := was;
    var x := Start(width, w);
    ghost var i := 0;
    while x < width
      invariant 0 <= i <= nx && x == At(width, w, i)
      invariant |rects| == j * nx + i && IsGrid(rects, w, h, width, height, nx)
      decreases nx - i
    {
      InFront(width, w, i);
      Position(i, j, nx);
      rects := rects + [Rect(x, y, w, h)];
      x := x + w;
      NextAt(width, w, i);
      i := i + 1;
    }
    InFront(width, w, i);
  }

  // ----- cover and contain -----

  function Min(a: real, b: real): real {
    if a <= b then a else b
  }

  function Max(a: real, b: real): real {
    if a >= b then a else b
  }

  /** Centred, same aspect, and one side flush with the viewport; `contain` stays inside, `cover` reaches
      every edge. */
  predicate Fits(r: Rect, fit: Fit, w: real, h: real, width: real, height: real) {
    && Centred(r, width, height) && r.width * h == r.height * w
    && (r.width == width || r.height == height)
    && (fit.Contain? ==> 0.0 < r.width <= width && 0.0 < r.height <= height && r.x >= 0.0 && r.y >= 0.0)
    && (fit.Cover? ==> r.width >= width && r.height >= height && r.x <= 0.0 && r.y <= 0.0)
  }

  lemma Scaled(fit: Fit, w: real, h: real, width: real, height: real, scale: real)
    requires w > 0.0 && h > 0.0 && width > 0.0 && height > 0.0 && !fit.Tile?
    requires scale == if fit.Contain? then Min(width / w, height / h) else Max(width / w, height / h)
    ensures var r := Rect((width - w * scale) / 2.0, (height - h * scale) / 2.0, w * scale, h * scale);
            Fits(r, fit, w, h, width, height)
  {
    var p, q := width / w, height / h;
    Quotient(width, w);
    Quotient(height, h);
    Scale(scale, p, w);
    Scale(scale, q, h);
    Scale(p, scale, w);
    Scale(q, scale, h);
    Scale(0.0, scale, w);
    Scale(0.0, scale, h);
    Commute(w, h, scale);
  }

  lemma Commute(w: real, h: real, scale: real)
    ensures w * scale * h == h * scale * w
    ensures w * scale == scale * w && h * scale == scale * h
  {
  }

  /** wallpaperDrawRects */
  method DrawRects(fit: Fit, w: real, h: real, width: real, height: real) returns (rects: seq<Rect>)
    ensures |rects| <= 4000
    ensures w <= 0.0 || h <= 0.0 || width <= 0.0 || height <= 0.0 ==> rects == []
    ensures w > 0.0 && h > 0.0 && width > 0.0 && height > 0.0 && !fit.Tile? ==>
              |rects| == 1 && Fits(rects[0], fit, w, h, width, height)
    ensures w > 0.0 && h > 0.0 && width > 0.0 && height > 0.0 && fit.Tile? ==>
              if (Ceil(width / w) + 1) * (Ceil(height / h) + 1) > 4000 then rects == []
              else
                && CoversOnce(rects, width, height)
                && (exists k :: 0 <= k < |rects| && Centred(rects[k], width, height))
                && forall k :: 0 <= k < |rects| ==> rects[k].width == w && rects[k].height == h
  {
    if w <= 0.0 || h <= 0.0 || width <= 0.0 || height <= 0.0 {
      return [];
    }
    if fit.Tile? {
      var cols, rows := Ceil(width / w) + 1, Ceil(height / h) + 1;
      if cols * rows > MAX_TILES {
        return [];
      }
      EstimateHolds(width, w);
      EstimateHolds(height, h);
      ghost var nx, ny := Across(width, w), Across(height, h);
      rects := TileRects(w, h, width, height, nx, ny);
      Products(nx, ny, cols, rows);
      GridCoversOnce(rects, w, h, width, height, nx, ny);
      ghost var k := GridIsCentred(rects, w, h, width, height, nx, ny);
      return;
    }
    var scale := if fit.Contain? then Min(width / w, height / h) else Max(width / w, height / h);
    var drawWidth, drawHeight := w * scale, h * scale;
    rects := [Rect((width - drawWidth) / 2.0, (height - drawHeight) / 2.0, drawWidth, drawHeight)];
    Scaled(fit, w, h, width, height, scale);
  }

  lemma Products(a: nat, b: nat, c: nat, d: nat)
    requires a <= c && b <= d
    ensures a * b <= c * d
  {
    assert (c - a) * d >= 0 && a * (d - b) >= 0;
    assert c * d - a * b == (c - a) * d + a * (d - b);
  }
}
