/** Integer parts of the tile-layer blit: the tileset source rectangle of a
    tile id, and the row-major order in which the cells of a layer are walked. */
module Tiles {
  import opened RenderTypes

  /** C++ integer division: the quotient is truncated toward zero. */
  function CDiv(a: int, b: int): int
    requires b > 0
  {
    if a >= 0 then a / b else -((-a) / b)
  }

  /** C++ `%`: the remainder takes the sign of the dividend. */
  function CMod(a: int, b: int): int
    requires b > 0
  {
    a - b * CDiv(a, b)
  }

  /** C++ division and remainder reassemble the dividend, the remainder is
      smaller than the divisor in magnitude and never has the opposite sign. */
  lemma CDivMod(a: int, b: int)
    requires b > 0
    ensures a == b * CDiv(a, b) + CMod(a, b)
    ensures a >= 0 ==> 0 <= CMod(a, b) < b && CDiv(a, b) == a / b && CMod(a, b) == a % b
    ensures a < 0 ==> -b < CMod(a, b) <= 0
  {
    if a < 0 {
      var q := (-a) / b;
      assert -a == b * q + (-a) % b;
      assert CMod(a, b) == -((-a) % b);
    }
  }

  /** GetImageRectFromId: the rectangle of tile `id` inside the tileset image,
      counting tiles row by row, `columns` per row. */
  function GetImageRectFromId(t: Tileset, id: int): (r: Rect)
    requires t.columns > 0
    ensures r.w == t.tileWidth && r.h == t.tileHeight
  {
    Rect(t.tileWidth * CMod(id, t.columns), t.tileHeight * CDiv(id, t.columns),
         t.tileWidth, t.tileHeight)
  }

  lemma MulAtLeast(n: int, d: int)
    requires n > 0 && d >= 1
    ensures n * d >= n
  {
  }

  lemma MulDivCancel(k: int, n: int)
    requires n > 0
    ensures (n * k) / n == k
  {
    var q, r := (n * k) / n, (n * k) % n;
    assert n * k == n * q + r && 0 <= r < n;
    assert n * (k - q) == r;
    if k - q >= 1 {
      MulAtLeast(n, k - q);
    } else if k - q <= -1 {
      MulAtLeast(n, q - k);
    }
  }

  /** For a non-negative id and positive tile sizes, the rectangle names the
      tile in column id % columns and row id / columns, so the id can be read
      back from it. */
  lemma TileRectRecoversId(t: Tileset, id: int)
    requires t.columns > 0 && t.tileWidth > 0 && t.tileHeight > 0 && id >= 0
    ensures GetImageRectFromId(t, id).x / t.tileWidth == id % t.columns
    ensures GetImageRectFromId(t, id).y / t.tileHeight == id / t.columns
    ensures (GetImageRectFromId(t, id).y / t.tileHeight) * t.columns
            + GetImageRectFromId(t, id).x / t.tileWidth == id
  {
    CDivMod(id, t.columns);
    MulDivCancel(id % t.columns, t.tileWidth);
    MulDivCancel(id / t.columns, t.tileHeight);
  }

  /** Distinct non-negative tile ids get distinct source rectangles. */
  lemma TileRectsDistinct(t: Tileset, id1: int, id2: int)
    requires t.columns > 0 && t.tileWidth > 0 && t.tileHeight > 0
    requires id1 >= 0 && id2 >= 0 && id1 != id2
    ensures GetImageRectFromId(t, id1) != GetImageRectFromId(t, id2)
  {
    TileRectRecoversId(t, id1);
    TileRectRecoversId(t, id2);
  }

  /** A grid cell: column x, row y. */
  datatype Cell = Cell(x: int, y: int)

  /** Row y of a grid, cells x = 0 .. n-1 in order. */
  function RowCells(y: int, n: nat): seq<Cell>
  {
    if n == 0 then [] else RowCells(y, n - 1) + [Cell(n - 1, y)]
  }

  /** The cells of rows 0 .. rows-1 of a grid `width` wide, in the order the
      nested loop of BlitLayer::Blit visits them: row by row, left to right. */
  function RowMajor(width: nat, rows: nat): seq<Cell>
  {
    if rows == 0 then [] else RowMajor(width, rows - 1) + RowCells(rows - 1, width)
  }

  /** Index into the layer's tile data of a cell, y * width + x. */
  function CellIndex(width: nat, c: Cell): int
  {
    c.y * width + c.x
  }

  lemma {:induction false} RowCellsAt(y: int, n: nat)
    ensures |RowCells(y, n)| == n
    ensures forall k :: 0 <= k < n ==> RowCells(y, n)[k] == Cell(k, y)
  {
    if n > 0 { RowCellsAt(y, n - 1); }
  }

  /** The walk visits the data indices 0, 1, ..., width*rows - 1 in that
      order: the k-th visited cell is inside the grid and has index k. */
  lemma {:induction false} RowMajorVisitsEachIndexInOrder(width: nat, rows: nat)
    ensures |RowMajor(width, rows)| == width * rows
    ensures forall k :: 0 <= k < |RowMajor(width, rows)| ==>
      0 <= RowMajor(width, rows)[k].x < width && 0 <= RowMajor(width, rows)[k].y < rows &&
      CellIndex(width, RowMajor(width, rows)[k]) == k
  {
    if rows > 0 {
      RowMajorVisitsEachIndexInOrder(width, rows - 1);
      RowCellsAt(rows - 1, width);
      var prev := RowMajor(width, rows - 1);
      var base := width * (rows - 1);
      assert width * rows == base + width by { Distribute(width, rows - 1); }
      forall k | 0 <= k < |RowMajor(width, rows)|
        ensures 0 <= RowMajor(width, rows)[k].x < width && 0 <= RowMajor(width, rows)[k].y < rows
        ensures CellIndex(width, RowMajor(width, rows)[k]) == k
      {
        if k >= |prev| {
          assert RowMajor(width, rows)[k] == Cell(k - base, rows - 1);
          assert (rows - 1) * width == base;
        } else {
          assert RowMajor(width, rows)[k] == prev[k];
        }
      }
    }
  }

  lemma Distribute(w: int, r: int)
    ensures w * (r + 1) == w * r + w
    ensures (r + 1) * w == r * w + w
  {
  }

  lemma MulMonotone(a: nat, b: nat, w: nat)
    requires a <= b
    ensures a * w <= b * w
  {
    assert b * w == a * w + (b - a) * w;
  }

  /** Cell (x, y) of a well-formed layer has a tile id in the data. */
  lemma CellIndexInRange(layer: Layer, c: Cell)
    requires LayerWellFormed(layer)
    requires 0 <= c.x < layer.width && 0 <= c.y < layer.height
    ensures 0 <= CellIndex(layer.width, c) < |layer.data|
  {
    var w, h := layer.width, layer.height;
    Distribute(w, c.y);
    MulMonotone(c.y + 1, h, w);
    assert CellIndex(w, c) < w * (c.y + 1) <= w * h;
  }
}
