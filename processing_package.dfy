/**
 * The raster processing package: the drainage network and outlet snap of
 * the in-memory delineation, the clip box of the delineated watershed,
 * neighbour-based pixel selection, the resolution / NoData / data-type
 * choices of the mosaic builder, the classification of a continuous
 * raster into five categories and the per-polygon pixel statistics.
 */
module ProcessingPackage {
  import opened Wrappers
  import opened PyNum
  import DelimitacionCuenca
  import Sorting

  type Cell = (int, int)
  type Mask = seq<seq<bool>>

  predicate Rect<T>(g: seq<seq<T>>, h: nat, w: nat)
  {
    |g| == h && forall r :: 0 <= r < h ==> |g[r]| == w
  }

  predicate InGrid(h: nat, w: nat, p: Cell)
  {
    0 <= p.0 < h && 0 <= p.1 < w
  }

  // ---------------------------------------------------------------------
  // Drainage network
  // ---------------------------------------------------------------------

  /** The channel mask `AccumArea > threshold`, with strict comparison. */
  function NetworkMask(acc: seq<seq<real>>, pixelArea: real, threshold: real): (m: Mask)
    ensures |m| == |acc| && forall r :: 0 <= r < |m| ==> |m[r]| == |acc[r]|
  {
    seq(|acc|, r requires 0 <= r < |acc| => seq(|acc[r]|, c requires 0 <= c < |acc[r]| => acc[r][c] * pixelArea > threshold))
  }

  predicate HasChannel(acc: seq<seq<real>>, pixelArea: real, threshold: real)
  {
    exists r, c :: 0 <= r < |acc| && 0 <= c < |acc[r]| && acc[r][c] * pixelArea > threshold
  }

  /** The drainage network, or the ValueError raised when no cell exceeds the threshold. */
  function DrainageNetwork(acc: seq<seq<real>>, pixelArea: real, threshold: real): (r: Result<Mask>)
    ensures r.Err? <==>
      forall i, j :: 0 <= i < |acc| && 0 <= j < |acc[i]| ==> acc[i][j] * pixelArea <= threshold
    ensures r.Ok? ==> (|r.value| == |acc| &&
      forall i, j :: 0 <= i < |acc| && 0 <= j < |acc[i]| ==>
        j < |r.value[i]| && (r.value[i][j] <==> acc[i][j] * pixelArea > threshold))
    ensures r.Ok? ==> exists i, j :: 0 <= i < |r.value| && 0 <= j < |r.value[i]| && r.value[i][j]
  {
    if HasChannel(acc, pixelArea, threshold) then
      var m := NetworkMask(acc, pixelArea, threshold);
      var i, j :| 0 <= i < |acc| && 0 <= j < |acc[i]| && acc[i][j] * pixelArea > threshold;
      assert m[i][j];
      Ok(m)
    else Err("ValueError: no channel cells above the threshold")
  }

  // ---------------------------------------------------------------------
  // Clip box of the delineated watershed
  // ---------------------------------------------------------------------

  predicate RowHasCell(ws: Mask, r: int)
    requires 0 <= r < |ws|
  {
    exists c :: 0 <= c < |ws[r]| && ws[r][c]
  }

  predicate ColHasCell(ws: Mask, c: int)
  {
    exists r :: 0 <= r < |ws| && 0 <= c < |ws[r]| && ws[r][c]
  }

  /** The first index in `[i, n)` where `p` holds, as `min()` of the indices `np.where` lists. */
  function FirstWith(n: int, p: int -> bool, i: int): (k: Option<int>)
    ensures k.Some? ==> i <= k.value < n && p(k.value) && forall j :: i <= j < k.value ==> !p(j)
    ensures k.None? ==> forall j :: i <= j < n ==> !p(j)
    decreases n - i
  {
    if i >= n then None else if p(i) then Some(i) else FirstWith(n, p, i + 1)
  }

  /** The last index in `[lo, hi)` where `p` holds, as `max()`. */
  function LastWith(lo: int, p: int -> bool, hi: int): (k: Option<int>)
    ensures k.Some? ==> lo <= k.value < hi && p(k.value) && forall j :: k.value < j < hi ==> !p(j)
    ensures k.None? ==> forall j :: lo <= j < hi ==> !p(j)
    decreases hi - lo
  {
    if hi <= lo then None else if p(hi - 1) then Some(hi - 1) else LastWith(lo, p, hi - 1)
  }

  /**
   * The watershed's bounding box, `min()`/`max()` of the row and column
   * indices `np.where` lists; None for an empty watershed.
   */
  function WatershedBox(ws: Mask, h: nat, w: nat): (b: Option<DelimitacionCuenca.Basin>)
    requires Rect(ws, h, w)
    ensures b.None? <==> forall i, j :: 0 <= i < h && 0 <= j < w ==> !ws[i][j]
    ensures b.Some? ==> 0 <= b.value.minR <= b.value.maxR < h && 0 <= b.value.minC <= b.value.maxC < w
    ensures b.Some? ==> forall i, j :: 0 <= i < h && 0 <= j < w && ws[i][j] ==>
      b.value.minR <= i <= b.value.maxR && b.value.minC <= j <= b.value.maxC
    ensures b.Some? ==> RowHasCell(ws, b.value.minR) && RowHasCell(ws, b.value.maxR)
    ensures b.Some? ==> ColHasCell(ws, b.value.minC) && ColHasCell(ws, b.value.maxC)
  {
    var rowHas := (i: int) => 0 <= i < h && RowHasCell(ws, i);
    var colHas := (j: int) => ColHasCell(ws, j);
    var r0 := FirstWith(h, rowHas, 0);
    if r0.None? then
      assert forall i, j :: 0 <= i < h && 0 <= j < w ==> !ws[i][j] by {
        forall i, j | 0 <= i < h && 0 <= j < w ensures !ws[i][j] { assert !rowHas(i); }
      }
      None
    else
      var i0 := r0.value;
      var j0 :| 0 <= j0 < w && ws[i0][j0];
      assert colHas(j0);
      var r1, c0, c1 := LastWith(0, rowHas, h), FirstWith(w, colHas, 0), LastWith(0, colHas, w);
      assert forall i, j :: 0 <= i < h && 0 <= j < w && ws[i][j] ==>
        r0.value <= i <= r1.value && c0.value <= j <= c1.value by {
        forall i, j | 0 <= i < h && 0 <= j < w && ws[i][j]
          ensures r0.value <= i <= r1.value && c0.value <= j <= c1.value
        {
          assert rowHas(i) && colHas(j);
        }
      }
      Some(DelimitacionCuenca.Basin({}, r0.value, r1.value, c0.value, c1.value))
  }

  /**
   * The watershed's clip window: its bounding box grown by five cells and
   * cut at the raster edge; an empty watershed makes `min()` raise ValueError.
   */
  function WatershedClip(ws: Mask, h: nat, w: nat): (r: Result<DelimitacionCuenca.Window>)
    requires Rect(ws, h, w)
    ensures r.Err? <==> forall i, j :: 0 <= i < h && 0 <= j < w ==> !ws[i][j]
    ensures r.Ok? ==> 0 <= r.value.rowMin && r.value.rowMax <= h && 0 <= r.value.colMin && r.value.colMax <= w
    ensures r.Ok? ==> forall i, j :: 0 <= i < h && 0 <= j < w && ws[i][j] ==>
      r.value.rowMin + (if r.value.rowMin == 0 then 0 else 5) <= i < r.value.rowMax - (if r.value.rowMax == h then 0 else 5) &&
      r.value.colMin + (if r.value.colMin == 0 then 0 else 5) <= j < r.value.colMax - (if r.value.colMax == w then 0 else 5)
    ensures r.Ok? ==> (r.value.rowMin == 0 || RowHasCell(ws, r.value.rowMin + 5)) &&
                      (r.value.rowMax == h || RowHasCell(ws, r.value.rowMax - 6))
    ensures r.Ok? ==> (r.value.colMin == 0 || ColHasCell(ws, r.value.colMin + 5)) &&
                      (r.value.colMax == w || ColHasCell(ws, r.value.colMax - 6))
  {
    match WatershedBox(ws, h, w)
    case None => Err("ValueError: empty watershed")
    case Some(box) => Ok(DelimitacionCuenca.ClipWindow(box, h, w))
  }

  // ---------------------------------------------------------------------
  // Snapping the outlet to the network (tiled fallback)
  // ---------------------------------------------------------------------

  /** The grid's geotransform: west edge, north edge and cell size. */
  datatype GridGeom = GridGeom(xmin: real, ymax: real, dx: real, dy: real)

  function AbsReal(x: real): real { if x < 0.0 then -x else x }

  /** The map coordinates the fallback gives a cell: `xmin + col·dx`, `ymax − row·|dy|`. */
  function CellX(g: GridGeom, c: int): real { g.xmin + (c as real) * g.dx }
  function CellY(g: GridGeom, r: int): real { g.ymax - (r as real) * AbsReal(g.dy) }

  function D2(g: GridGeom, p: Cell, x0: real, y0: real): real
  {
    (CellX(g, p.1) - x0) * (CellX(g, p.1) - x0) + (CellY(g, p.0) - y0) * (CellY(g, p.0) - y0)
  }

  predicate InEither(a: DelimitacionCuenca.Window, b: DelimitacionCuenca.Window, p: Cell)
  {
    DelimitacionCuenca.InWindow(a, p) || DelimitacionCuenca.InWindow(b, p)
  }

  const NoWindow := DelimitacionCuenca.Window(0, 0, 0, 0)

  /**
   * `k` is a nearest mask cell of the region `a ∪ b` with its squared
   * distance, or None when the region holds no mask cell.
   */
  ghost predicate BestIn(m: Mask, h: nat, w: nat, g: GridGeom, x0: real, y0: real,
                         k: Option<(Cell, real)>, a: DelimitacionCuenca.Window, b: DelimitacionCuenca.Window)
    requires Rect(m, h, w)
  {
    (k.None? ==> forall p :: InEither(a, b, p) && InGrid(h, w, p) ==> !m[p.0][p.1]) &&
    (k.Some? ==>
      InEither(a, b, k.value.0) && InGrid(h, w, k.value.0) && m[k.value.0.0][k.value.0.1] &&
      k.value.1 == D2(g, k.value.0, x0, y0) &&
      forall p :: InEither(a, b, p) && InGrid(h, w, p) && m[p.0][p.1] ==> k.value.1 <= D2(g, p, x0, y0))
  }

  /** Scans row `i` of a tile, keeping the first strictly closer mask cell. */
  method ScanTileRow(m: Mask, h: nat, w: nat, g: GridGeom, x0: real, y0: real,
                     tile: DelimitacionCuenca.Window, i: int, k0: Option<(Cell, real)>)
    returns (k: Option<(Cell, real)>)
    requires Rect(m, h, w) && 0 <= tile.rowMin <= i < tile.rowMax <= h && 0 <= tile.colMin <= tile.colMax <= w
    requires BestIn(m, h, w, g, x0, y0, k0, DelimitacionCuenca.Window(tile.rowMin, i, tile.colMin, tile.colMax), NoWindow)
    ensures BestIn(m, h, w, g, x0, y0, k, DelimitacionCuenca.Window(tile.rowMin, i + 1, tile.colMin, tile.colMax), NoWindow)
  {
    var done := DelimitacionCuenca.Window(tile.rowMin, i, tile.colMin, tile.colMax);
    k := k0;
    var j := tile.colMin;
    while j < tile.colMax
      invariant tile.colMin <= j <= tile.colMax
      invariant BestIn(m, h, w, g, x0, y0, k, done, DelimitacionCuenca.Window(i, i + 1, tile.colMin, j))
    {
      var d := D2(g, (i, j), x0, y0);
      if m[i][j] && (k.None? || d < k.value.1) {
        k := Some(((i, j), d));
      }
      j := j + 1;
    }
    var after := DelimitacionCuenca.Window(tile.rowMin, i + 1, tile.colMin, tile.colMax);
    var lastRow := DelimitacionCuenca.Window(i, i + 1, tile.colMin, j);
    assert forall p :: InEither(after, NoWindow, p) == InEither(done, lastRow, p);
  }

  /** `np.argmin` of the squared distances over the mask cells of one tile. */
  method NearestInTile(m: Mask, h: nat, w: nat, g: GridGeom, x0: real, y0: real, tile: DelimitacionCuenca.Window)
    returns (k: Option<(Cell, real)>)
    requires Rect(m, h, w) && 0 <= tile.rowMin <= tile.rowMax <= h && 0 <= tile.colMin <= tile.colMax <= w
    ensures BestIn(m, h, w, g, x0, y0, k, tile, NoWindow)
  {
    k := None;
    var i := tile.rowMin;
    while i < tile.rowMax
      invariant tile.rowMin <= i <= tile.rowMax
      invariant BestIn(m, h, w, g, x0, y0, k, DelimitacionCuenca.Window(tile.rowMin, i, tile.colMin, tile.colMax), NoWindow)
    {
      k := ScanTileRow(m, h, w, g, x0, y0, tile, i, k);
      i := i + 1;
    }
  }

  /** Merging a tile's best into the running best keeps the best of the union. */
  lemma MergeTile(m: Mask, h: nat, w: nat, g: GridGeom, x0: real, y0: real,
                  best: Option<(Cell, real)>, kt: Option<(Cell, real)>,
                  a: DelimitacionCuenca.Window, b: DelimitacionCuenca.Window, t: DelimitacionCuenca.Window,
                  b2: DelimitacionCuenca.Window)
    requires Rect(m, h, w)
    requires BestIn(m, h, w, g, x0, y0, best, a, b) && BestIn(m, h, w, g, x0, y0, kt, t, NoWindow)
    requires forall p :: DelimitacionCuenca.InWindow(b2, p) <==> DelimitacionCuenca.InWindow(b, p) || DelimitacionCuenca.InWindow(t, p)
    ensures var merged := if kt.Some? && (best.None? || kt.value.1 < best.value.1) then kt else best;
      BestIn(m, h, w, g, x0, y0, merged, a, b2)
  {
  }

  /**
   * `_snap_to_mask_numpy`: tiles are scanned row by row and a tile's
   * nearest cell replaces the running best only when strictly closer.
   * The result is the input point when the mask is empty, otherwise the
   * coordinates of a mask cell at least as close as every other.
   */
  method SnapToMask(m: Mask, h: nat, w: nat, g: GridGeom, x0: real, y0: real, tileSize: nat)
    returns (x: real, y: real, ghost cell: Option<Cell>)
    requires Rect(m, h, w) && tileSize > 0
    ensures cell.None? <==> forall p :: InGrid(h, w, p) ==> !m[p.0][p.1]
    ensures cell.None? ==> x == x0 && y == y0
    ensures cell.Some? ==> (InGrid(h, w, cell.value) && m[cell.value.0][cell.value.1] &&
      x == CellX(g, cell.value.1) && y == CellY(g, cell.value.0) &&
      forall p :: InGrid(h, w, p) && m[p.0][p.1] ==> D2(g, cell.value, x0, y0) <= D2(g, p, x0, y0))
  {
    x, y := x0, y0;
    var best: Option<(Cell, real)> := None;
    var row := 0;
    while row < h
      invariant 0 <= row <= h
      invariant BestIn(m, h, w, g, x0, y0, best, DelimitacionCuenca.Window(0, row, 0, w), NoWindow)
      invariant best.None? ==> x == x0 && y == y0
      invariant best.Some? ==> x == CellX(g, best.value.0.1) && y == CellY(g, best.value.0.0)
    {
      var nrows := Min(tileSize, h - row);
      best, x, y := SnapTileRow(m, h, w, g, x0, y0, tileSize, row, nrows, best, x, y);
      var above := DelimitacionCuenca.Window(0, row, 0, w);
      var tileRow := DelimitacionCuenca.Window(row, row + nrows, 0, w);
      var after := DelimitacionCuenca.Window(0, row + nrows, 0, w);
      assert forall p :: InEither(after, NoWindow, p) == InEither(above, tileRow, p);
      row := row + nrows;
    }
    cell := if best.Some? then Some(best.value.0) else None;
  }

  /** One row of tiles of that scan, left to right, merged into the best cell of the rows above. */
  method SnapTileRow(m: Mask, h: nat, w: nat, g: GridGeom, x0: real, y0: real, tileSize: nat, row: nat, nrows: nat,
                     best0: Option<(Cell, real)>, xIn: real, yIn: real)
    returns (best: Option<(Cell, real)>, x: real, y: real)
    requires Rect(m, h, w) && tileSize > 0 && row + nrows <= h
    requires BestIn(m, h, w, g, x0, y0, best0, DelimitacionCuenca.Window(0, row, 0, w), NoWindow)
    requires best0.None? ==> xIn == x0 && yIn == y0
    requires best0.Some? ==> xIn == CellX(g, best0.value.0.1) && yIn == CellY(g, best0.value.0.0)
    ensures BestIn(m, h, w, g, x0, y0, best, DelimitacionCuenca.Window(0, row, 0, w),
                   DelimitacionCuenca.Window(row, row + nrows, 0, w))
    ensures best.None? ==> x == x0 && y == y0
    ensures best.Some? ==> x == CellX(g, best.value.0.1) && y == CellY(g, best.value.0.0)
  {
    best, x, y := best0, xIn, yIn;
    var col := 0;
    while col < w
      invariant 0 <= col <= w
      invariant BestIn(m, h, w, g, x0, y0, best, DelimitacionCuenca.Window(0, row, 0, w),
                       DelimitacionCuenca.Window(row, row + nrows, 0, col))
      invariant best.None? ==> x == x0 && y == y0
      invariant best.Some? ==> x == CellX(g, best.value.0.1) && y == CellY(g, best.value.0.0)
    {
      best, x, y, col := SnapTile(m, h, w, g, x0, y0, tileSize, row, nrows, col, best, x, y);
    }
  }

  /** One tile of that row: its nearest mask cell replaces the best one when strictly closer. */
  method SnapTile(m: Mask, h: nat, w: nat, g: GridGeom, x0: real, y0: real, tileSize: nat, row: nat, nrows: nat,
                  col0: nat, best0: Option<(Cell, real)>, xIn: real, yIn: real)
    returns (best: Option<(Cell, real)>, x: real, y: real, col: nat)
    requires Rect(m, h, w) && tileSize > 0 && row + nrows <= h && col0 < w
    requires BestIn(m, h, w, g, x0, y0, best0, DelimitacionCuenca.Window(0, row, 0, w),
                    DelimitacionCuenca.Window(row, row + nrows, 0, col0))
    requires best0.None? ==> xIn == x0 && yIn == y0
    requires best0.Some? ==> xIn == CellX(g, best0.value.0.1) && yIn == CellY(g, best0.value.0.0)
    ensures col0 < col <= w
    ensures BestIn(m, h, w, g, x0, y0, best, DelimitacionCuenca.Window(0, row, 0, w),
                   DelimitacionCuenca.Window(row, row + nrows, 0, col))
    ensures best.None? ==> x == x0 && y == y0
    ensures best.Some? ==> x == CellX(g, best.value.0.1) && y == CellY(g, best.value.0.0)
  {
    best, x, y := best0, xIn, yIn;
    var ncols := Min(tileSize, w - col0);
    col := col0 + ncols;
    var tile := DelimitacionCuenca.Window(row, row + nrows, col0, col);
    var kt := NearestInTile(m, h, w, g, x0, y0, tile);
    MergeTile(m, h, w, g, x0, y0, best, kt, DelimitacionCuenca.Window(0, row, 0, w),
              DelimitacionCuenca.Window(row, row + nrows, 0, col0), tile,
              DelimitacionCuenca.Window(row, row + nrows, 0, col));
    if kt.Some? && (best.None? || kt.value.1 < best.value.1) {
      best := kt;
      x, y := CellX(g, kt.value.0.1), CellY(g, kt.value.0.0);
    }
  }

  /** A network the drainage step produced has the raster's shape and a channel cell, so the snap never keeps the input point. */
  lemma NetworkHasChannel(acc: seq<seq<real>>, pixelArea: real, threshold: real, h: nat, w: nat)
    requires Rect(acc, h, w) && DrainageNetwork(acc, pixelArea, threshold).Ok?
    ensures Rect(DrainageNetwork(acc, pixelArea, threshold).value, h, w)
    ensures exists q :: InGrid(h, w, q) && DrainageNetwork(acc, pixelArea, threshold).value[q.0][q.1]
  {
    var m := DrainageNetwork(acc, pixelArea, threshold).value;
    var i, j :| 0 <= i < |m| && 0 <= j < |m[i]| && m[i][j];
    assert InGrid(h, w, (i, j));
  }

  // ---------------------------------------------------------------------
  // Pixels with enough equal neighbours
  // ---------------------------------------------------------------------

  /** The target pixels of the kernel window around `(r, c)`; cells beyond the edge count as 0. */
  function NeighborSet(b: Mask, h: nat, w: nat, half: nat, includeCentre: bool, r: int, c: int): set<Cell>
    requires Rect(b, h, w)
  {
    set i: int, j: int | r - half <= i <= r + half && c - half <= j <= c + half &&
                         (includeCentre || (i, j) != (r, c)) && 0 <= i < h && 0 <= j < w && b[i][j] :: (i, j)
  }

  /** The convolution of the target mask with the square kernel, at one cell. */
  function NeighborCount(b: Mask, h: nat, w: nat, half: nat, includeCentre: bool, r: int, c: int): nat
    requires Rect(b, h, w)
  {
    |NeighborSet(b, h, w, half, includeCentre, r, c)|
  }

  /**
   * The count as the convolution stores it: the output has the input's
   * `uint8` type, so a count is kept modulo 256 (a window of 17 × 17 or
   * more can hold 256 target pixels).
   */
  function StoredCount(b: Mask, h: nat, w: nat, half: nat, includeCentre: bool, r: int, c: int): (n: nat)
    requires Rect(b, h, w)
    ensures n < 256
    ensures NeighborCount(b, h, w, half, includeCentre, r, c) < 256 ==> n == NeighborCount(b, h, w, half, includeCentre, r, c)
  {
    NeighborCount(b, h, w, half, includeCentre, r, c) % 256
  }

  /** Counting the centre adds exactly one at every target pixel. */
  lemma CentreAddsOne(b: Mask, h: nat, w: nat, half: nat, r: int, c: int)
    requires Rect(b, h, w) && InGrid(h, w, (r, c)) && b[r][c]
    ensures NeighborCount(b, h, w, half, true, r, c) == NeighborCount(b, h, w, half, false, r, c) + 1
  {
    var with := NeighborSet(b, h, w, half, true, r, c);
    var without := NeighborSet(b, h, w, half, false, r, c);
    assert (r, c) in with;
    assert with == without + {(r, c)};
  }

  lemma {:induction false} SubsetCard<T>(a: set<T>, b: set<T>)
    requires a <= b
    ensures |a| <= |b|
    decreases |b|
  {
    if a != {} {
      var x :| x in a;
      SubsetCard(a - {x}, b - {x});
    }
  }

  datatype Selection = Selection(selected: Mask, targetCount: nat, selectedCount: nat, percentRetained: real)

  function CellsOf(m: Mask, h: nat, w: nat): (cells: set<Cell>)
    requires Rect(m, h, w)
    ensures forall p :: p in cells <==> InGrid(h, w, p) && m[p.0][p.1]
  {
    set r, c | 0 <= r < h && 0 <= c < w && m[r][c] :: (r, c)
  }

  /** `binaria & (conteo_vecinos >= vecinos_minimos)`. */
  function SelectionMask(b: Mask, h: nat, w: nat, half: nat, includeCentre: bool, minNeighbors: int): (sel: Mask)
    requires Rect(b, h, w)
    ensures Rect(sel, h, w)
    ensures forall i, j :: 0 <= i < h && 0 <= j < w ==>
      (sel[i][j] <==> b[i][j] && StoredCount(b, h, w, half, includeCentre, i, j) >= minNeighbors)
    ensures minNeighbors > 255 ==> CellsOf(sel, h, w) == {}
    ensures CellsOf(sel, h, w) <= CellsOf(b, h, w)
  {
    seq(h, i requires 0 <= i < h => seq(w, j requires 0 <= j < w =>
      b[i][j] && StoredCount(b, h, w, half, includeCentre, i, j) >= minNeighbors))
  }

  /**
   * `seleccionar_pixels_con_vecinos`: the valid pixels equal to the target
   * value that have at least `minNeighbors` target pixels in the
   * `kernel × kernel` window. The kernel assertions fail for an even or
   * smaller-than-3 kernel and a negative minimum; no target pixel at all
   * raises ValueError.
   */
  function SelectWithNeighbors(data: seq<seq<real>>, valid: Mask, h: nat, w: nat, target: real,
                               minNeighbors: int, kernel: int, includeCentre: bool): (r: Result<Selection>)
    requires Rect(data, h, w) && Rect(valid, h, w)
    ensures (kernel % 2 != 1 || kernel < 3 || minNeighbors < 0) ==> r.Err?
    ensures r.Ok? ==> r.value.selected == SelectionMask(TargetMask(data, valid, h, w, target), h, w, kernel / 2, includeCentre, minNeighbors)
    ensures r.Ok? ==> 0 < r.value.targetCount && r.value.selectedCount <= r.value.targetCount
    ensures kernel % 2 == 1 && kernel >= 3 && minNeighbors >= 0 ==>
      (r.Err? <==> forall i, j :: 0 <= i < h && 0 <= j < w ==> !(valid[i][j] && data[i][j] == target))
  {
    if kernel % 2 != 1 then Err("AssertionError: the kernel size must be odd")
    else if kernel < 3 then Err("AssertionError: the kernel size must be at least 3")
    else if minNeighbors < 0 then Err("AssertionError: the neighbour minimum must be >= 0")
    else
      var b := TargetMask(data, valid, h, w, target);
      var targets := CellsOf(b, h, w);
      if |targets| == 0 then
        assert forall i, j :: 0 <= i < h && 0 <= j < w ==> (i, j) !in targets;
        Err("ValueError: no pixel has the target value")
      else
        var sel := SelectionMask(b, h, w, kernel / 2, includeCentre, minNeighbors);
        var chosen := CellsOf(sel, h, w);
        var p :| p in targets;
        assert InGrid(h, w, p) && valid[p.0][p.1] && data[p.0][p.1] == target;
        SubsetCard(chosen, targets);
        Ok(Selection(sel, |targets|, |chosen|, (|chosen| as real) / (|targets| as real) * 100.0))
  }

  /** `(data == target) & valid`. */
  function TargetMask(data: seq<seq<real>>, valid: Mask, h: nat, w: nat, target: real): (b: Mask)
    requires Rect(data, h, w) && Rect(valid, h, w)
    ensures Rect(b, h, w)
    ensures forall i, j :: 0 <= i < h && 0 <= j < w ==> (b[i][j] <==> valid[i][j] && data[i][j] == target)
  {
    seq(h, i requires 0 <= i < h => seq(w, j requires 0 <= j < w => valid[i][j] && data[i][j] == target))
  }

  /** A larger neighbour minimum never selects more pixels. */
  lemma SelectionShrinksWithMinimum(data: seq<seq<real>>, valid: Mask, h: nat, w: nat, target: real,
                                    m1: int, m2: int, kernel: int, includeCentre: bool)
    requires Rect(data, h, w) && Rect(valid, h, w) && m1 <= m2
    requires SelectWithNeighbors(data, valid, h, w, target, m2, kernel, includeCentre).Ok?
    requires 0 <= m1
    ensures var r1 := SelectWithNeighbors(data, valid, h, w, target, m1, kernel, includeCentre);
            var r2 := SelectWithNeighbors(data, valid, h, w, target, m2, kernel, includeCentre);
      r1.Ok? && Rect(r1.value.selected, h, w) && Rect(r2.value.selected, h, w) &&
      forall i, j :: 0 <= i < h && 0 <= j < w && r2.value.selected[i][j] ==> r1.value.selected[i][j]
  {
  }

  /** With a minimum of 0 every target pixel is selected. */
  lemma ZeroMinimumKeepsTargets(data: seq<seq<real>>, valid: Mask, h: nat, w: nat, target: real,
                                kernel: int, includeCentre: bool)
    requires Rect(data, h, w) && Rect(valid, h, w)
    requires SelectWithNeighbors(data, valid, h, w, target, 0, kernel, includeCentre).Ok?
    ensures var r := SelectWithNeighbors(data, valid, h, w, target, 0, kernel, includeCentre);
      Rect(r.value.selected, h, w) && r.value.selectedCount == r.value.targetCount &&
      forall i, j :: 0 <= i < h && 0 <= j < w ==> (r.value.selected[i][j] <==> valid[i][j] && data[i][j] == target)
  {
    var b := TargetMask(data, valid, h, w, target);
    var sel := SelectionMask(b, h, w, kernel / 2, includeCentre, 0);
    assert CellsOf(sel, h, w) == CellsOf(b, h, w);
  }

  // ---------------------------------------------------------------------
  // Mosaic: resolution, NoData and output data type
  // ---------------------------------------------------------------------

  /** The `resolucion` argument: absent, a number, a list or tuple, or anything else. */
  datatype ResolutionArg = NoResolution | Number(value: real) | Items(items: seq<real>) | OtherArg

  /**
   * The target resolution: a reference raster's pixel size wins; a number
   * gives a square pixel; a two-element sequence gives `(x, y)`; any other
   * argument or a non-positive value raises ValueError; no argument keeps
   * the finest source resolution (None).
   */
  function TargetResolution(reference: Option<(real, real)>, res: ResolutionArg): (r: Result<Option<(real, real)>>)
    ensures reference.Some? ==> r.Ok? && r.value == Some((AbsReal(reference.value.0), AbsReal(reference.value.1)))
    ensures reference.None? ==> (r.Ok? && r.value.None? <==> res.NoResolution?)
    ensures reference.None? && r.Ok? && r.value.Some? ==> r.value.value.0 > 0.0 && r.value.value.1 > 0.0
    ensures reference.None? && res.Number? && r.Ok? ==> r.value == Some((res.value, res.value))
    ensures reference.None? && res.Items? && r.Ok? ==> |res.items| == 2 && r.value == Some((res.items[0], res.items[1]))
    ensures reference.None? ==> (r.Err? <==>
      res.OtherArg? || (res.Items? && |res.items| != 2) || (res.Number? && res.value <= 0.0) ||
      (res.Items? && |res.items| == 2 && (res.items[0] <= 0.0 || res.items[1] <= 0.0)))
  {
    if reference.Some? then Ok(Some((AbsReal(reference.value.0), AbsReal(reference.value.1))))
    else ResolutionFromArg(res)
  }

  const ResolutionShapeError := "ValueError: resolution must be a number or a (res_x, res_y) pair"
  const ResolutionSignError := "ValueError: resolution values must be positive"

  /** The `resolucion` argument alone, when there is no reference raster. */
  function ResolutionFromArg(res: ResolutionArg): (r: Result<Option<(real, real)>>)
    ensures r.Ok? && r.value.None? <==> res.NoResolution?
    ensures r.Ok? && r.value.Some? ==> r.value.value.0 > 0.0 && r.value.value.1 > 0.0
    ensures res.Number? && r.Ok? ==> r.value == Some((res.value, res.value))
    ensures res.Items? && r.Ok? ==> |res.items| == 2 && r.value == Some((res.items[0], res.items[1]))
    ensures r.Err? <==>
      res.OtherArg? || (res.Items? && |res.items| != 2) || (res.Number? && res.value <= 0.0) ||
      (res.Items? && |res.items| == 2 && (res.items[0] <= 0.0 || res.items[1] <= 0.0))
  {
    match res
    case NoResolution => Ok(None)
    case OtherArg => Err(ResolutionShapeError)
    case Items(items) => PairResolution(items)
    case Number(v) =>
      if v <= 0.0 then Err(ResolutionSignError) else Ok(Some((v, v)))
  }

  /** A list or tuple resolution: exactly two positive values. */
  function PairResolution(items: seq<real>): (r: Result<Option<(real, real)>>)
    ensures r.Ok? <==> |items| == 2 && items[0] > 0.0 && items[1] > 0.0
    ensures r.Ok? ==> r.value == Some((items[0], items[1]))
  {
    if |items| != 2 then Err(ResolutionShapeError)
    else if items[0] <= 0.0 || items[1] <= 0.0 then Err(ResolutionSignError)
    else Ok(Some((items[0], items[1])))
  }

  datatype GdalType = GdtByte | GdtUInt16 | GdtInt16 | GdtUInt32 | GdtInt32 | GdtFloat32 | GdtFloat64 | GdtOther

  function Occurrences<T(==)>(xs: seq<T>, x: T): nat
  {
    multiset(xs)[x]
  }

  function FirstIndexOf<T(==)>(xs: seq<T>, x: T): (i: nat)
    requires x in xs
    ensures i < |xs| && xs[i] == x && forall j :: 0 <= j < i ==> xs[j] != x
  {
    if xs[0] == x then 0 else 1 + FirstIndexOf(xs[1..], x)
  }

  /**
   * `best` is the choice of `most_common(1)` over `xs[..i]`: the first
   * occurrence of a value no earlier value is more frequent than, and
   * earlier than any equally frequent one.
   */
  predicate BestSoFar<T(==)>(xs: seq<T>, i: nat, best: nat)
  {
    && best < i <= |xs| && FirstIndexOf(xs, xs[best]) == best
    && (forall j :: 0 <= j < i ==> Occurrences(xs, xs[j]) <= Occurrences(xs, xs[best]))
    && (forall j :: 0 <= j < i && Occurrences(xs, xs[j]) == Occurrences(xs, xs[best]) ==> best <= FirstIndexOf(xs, xs[j]))
  }

  /** A strictly more frequent `xs[i]` is a first occurrence, and becomes the choice. */
  lemma ReplaceBest<T>(xs: seq<T>, i: nat, best: nat)
    requires BestSoFar(xs, i, best) && i < |xs| && Occurrences(xs, xs[i]) > Occurrences(xs, xs[best])
    ensures BestSoFar(xs, i + 1, i)
  {
    var f := FirstIndexOf(xs, xs[i]);
    assert xs[f] == xs[i];
  }

  /** A value no more frequent than the choice leaves it in place. */
  lemma KeepBest<T>(xs: seq<T>, i: nat, best: nat)
    requires BestSoFar(xs, i, best) && i < |xs| && Occurrences(xs, xs[i]) <= Occurrences(xs, xs[best])
    ensures BestSoFar(xs, i + 1, best)
  {
    var f := FirstIndexOf(xs, xs[i]);
    assert xs[f] == xs[i];
    if f < i && Occurrences(xs, xs[i]) == Occurrences(xs, xs[best]) {
      assert Occurrences(xs, xs[f]) == Occurrences(xs, xs[best]);
    }
  }

  /** The running choice of `most_common(1)` over `xs[..i]`: replaced only by a strictly more frequent value. */
  function MostCommonFrom<T(==)>(xs: seq<T>, i: nat, best: nat): (k: nat)
    requires BestSoFar(xs, i, best)
    ensures BestSoFar(xs, |xs|, k)
    decreases |xs| - i
  {
    if i == |xs| then best
    else if Occurrences(xs, xs[i]) > Occurrences(xs, xs[best]) then
      ReplaceBest(xs, i, best);
      MostCommonFrom(xs, i + 1, i)
    else
      KeepBest(xs, i, best);
      MostCommonFrom(xs, i + 1, best)
  }

  /**
   * `Counter(xs).most_common(1)[0][0]`: a most frequent value, the first
   * to appear among equally frequent ones.
   */
  function MostCommon<T(==)>(xs: seq<T>): (x: T)
    requires |xs| > 0
    ensures x in xs
    ensures forall y :: y in xs ==> Occurrences(xs, y) <= Occurrences(xs, x)
    ensures forall y :: y in xs && Occurrences(xs, y) == Occurrences(xs, x) ==> FirstIndexOf(xs, x) <= FirstIndexOf(xs, y)
  {
    var k := MostCommonFrom(xs, 1, 0);
    assert forall y :: y in xs ==> xs[FirstIndexOf(xs, y)] == y;
    xs[k]
  }

  /** The safe NoData value for a data type. */
  function DefaultNodata(t: GdalType): (v: real)
    ensures t == GdtByte ==> v == 255.0
    ensures t.GdtUInt16? ==> v == 65535.0
    ensures t.GdtInt16? ==> v == -32768.0
    ensures t.GdtUInt32? ==> v == 4294967295.0
    ensures t.GdtInt32? ==> v == -2147483648.0
    ensures !(t.GdtByte? || t.GdtUInt16? || t.GdtInt16? || t.GdtUInt32? || t.GdtInt32?) ==> v == -9999.0
  {
    match t
    case GdtByte => 255.0
    case GdtUInt16 => 65535.0
    case GdtInt16 => -32768.0
    case GdtUInt32 => 4294967295.0
    case GdtInt32 => -2147483648.0
    case _ => -9999.0
  }

  function Defined(values: seq<Option<real>>): (r: seq<real>)
    ensures forall v :: v in r <==> Some(v) in values
  {
    if |values| == 0 then []
    else (if values[0].Some? then [values[0].value] else []) + Defined(values[1..])
  }

  /**
   * The mosaic's NoData value: the most common NoData declared by the
   * sources; when none declares one, the safe value of the most common
   * source data type (Float32 when no source could be read).
   */
  function ChooseNodata(values: seq<Option<real>>, types: seq<GdalType>): (v: real)
    ensures (exists x :: Some(x) in values) ==> (Some(v) in values &&
      forall y :: Some(y) in values ==> Occurrences(Defined(values), y) <= Occurrences(Defined(values), v))
    ensures (forall x :: Some(x) in values ==> false) ==>
      v == DefaultNodata(if |types| > 0 then MostCommon(types) else GdtFloat32)
  {
    var defined := Defined(values);
    if |defined| > 0 then MostCommon(defined)
    else
      DefaultNodata(if |types| > 0 then MostCommon(types) else GdtFloat32)
  }

  /** The integer types of the data-type chain, with their value ranges and widths in bytes. */
  predicate IntegerType(t: GdalType)
  {
    t.GdtByte? || t.GdtUInt16? || t.GdtInt16? || t.GdtUInt32? || t.GdtInt32?
  }

  function TypeMin(t: GdalType): real
    requires IntegerType(t)
  {
    match t
    case GdtByte => 0.0
    case GdtUInt16 => 0.0
    case GdtInt16 => -32768.0
    case GdtUInt32 => 0.0
    case GdtInt32 => -2147483648.0
  }

  function TypeMax(t: GdalType): real
    requires IntegerType(t)
  {
    match t
    case GdtByte => 255.0
    case GdtUInt16 => 65535.0
    case GdtInt16 => 32767.0
    case GdtUInt32 => 4294967295.0
    case GdtInt32 => 2147483647.0
  }

  function TypeBytes(t: GdalType): nat
  {
    match t
    case GdtByte => 1
    case GdtUInt16 => 2
    case GdtInt16 => 2
    case _ => 4
  }

  predicate Holds(t: GdalType, lo: real, hi: real)
    requires IntegerType(t)
  {
    TypeMin(t) <= lo && hi <= TypeMax(t)
  }

  function MinReal(a: real, b: real): real { if a <= b then a else b }
  function MaxReal(a: real, b: real): real { if a >= b then a else b }

  /**
   * The output data type: the first match of the chain over the range of
   * the valid data together with the NoData value (GDAL has no Int8, so
   * the `−128..127` case is Int16).
   */
  function OptimalDataType(dataMin: real, dataMax: real, nodata: Option<real>): (t: GdalType)
    ensures var lo := if nodata.Some? then MinReal(MinReal(dataMin, dataMax), nodata.value) else MinReal(dataMin, dataMax);
            var hi := if nodata.Some? then MaxReal(MaxReal(dataMin, dataMax), nodata.value) else MaxReal(dataMin, dataMax);
      (IntegerType(t) ==> Holds(t, lo, hi)) && (t.GdtFloat32? || IntegerType(t))
  {
    var lo := if nodata.Some? then MinReal(MinReal(dataMin, dataMax), nodata.value) else MinReal(dataMin, dataMax);
    var hi := if nodata.Some? then MaxReal(MaxReal(dataMin, dataMax), nodata.value) else MaxReal(dataMin, dataMax);
    TypeChain(lo, hi)
  }

  function TypeChain(lo: real, hi: real): GdalType
  {
    if lo >= 0.0 && hi <= 255.0 then GdtByte
    else if lo >= -128.0 && hi <= 127.0 then GdtInt16
    else if lo >= 0.0 && hi <= 65535.0 then GdtUInt16
    else if lo >= -32768.0 && hi <= 32767.0 then GdtInt16
    else if lo >= 0.0 && hi <= 4294967295.0 then GdtUInt32
    else if lo >= -2147483648.0 && hi <= 2147483647.0 then GdtInt32
    else GdtFloat32
  }

  /** The chosen type is as narrow as any integer type that holds the range, and Float32 only when none does. */
  lemma TypeChainNarrowest(lo: real, hi: real, t: GdalType)
    requires IntegerType(t) && Holds(t, lo, hi)
    ensures IntegerType(TypeChain(lo, hi)) && TypeBytes(TypeChain(lo, hi)) <= TypeBytes(t)
  {
  }

  // ---------------------------------------------------------------------
  // Classification of a continuous raster into five categories
  // ---------------------------------------------------------------------

  datatype BreakMethod = Custom | Quantiles | Equal | Jenks | StdDev | UnknownMethod(name: string)

  /**
   * What numpy and scikit-learn compute from the pixel sample: its range,
   * mean and standard deviation, the percentiles 0, 20, …, 100 and the
   * five k-means centres.
   */
  datatype SampleStats = SampleStats(min: real, max: real, mean: real, std: real,
                                     percentiles: seq<real>, centers: seq<real>)
  {
    predicate Valid()
    {
      min <= max && |percentiles| == 6 && |centers| == 5
    }
  }

  predicate Nondecreasing(b: seq<real>)
  {
    forall i, j :: 0 <= i < j < |b| ==> b[i] <= b[j]
  }

  /** `np.linspace(a, b, 6)`. */
  function Linspace6(a: real, b: real): (r: seq<real>)
    requires a <= b
    ensures |r| == 6 && r[0] == a && r[5] == b && Nondecreasing(r)
  {
    var d := (b - a) / 5.0;
    var r := seq(6, i requires 0 <= i < 6 => if i == 5 then b else a + (i as real) * d);
    assert r == [a, a + d, a + 2.0 * d, a + 3.0 * d, a + 4.0 * d, b];
    r
  }

  function ClipReal(v: real, lo: real, hi: real): real
  {
    if v < lo then lo else if v > hi then hi else v
  }

  predicate RealLe(a: real, b: real) { a <= b }

  const CustomBreaksError := "ValueError: custom_breaks must hold exactly 6 values"
  const UnknownMethodError := "ValueError: method must be 'quantiles', 'equal', 'jenks', 'std' or 'custom'"

  /**
   * The six class breaks of each method. A custom list must hold exactly
   * six values and an unknown method raises ValueError.
   */
  function ClassBreaks(how: BreakMethod, custom: Option<seq<real>>, st: SampleStats): (r: Result<seq<real>>)
    requires st.Valid()
    ensures r.Err? <==> (how.Custom? && (custom.None? || |custom.value| != 6)) || how.UnknownMethod?
    ensures r.Ok? ==> |r.value| == 6
    ensures r.Ok? && how.Custom? ==> r.value == custom.value
    ensures how.Quantiles? ==> r == Ok(st.percentiles)
    ensures (how.Equal? || how.Jenks? || how.StdDev?) ==> r.Ok? && r.value[0] == st.min && r.value[5] == st.max
    ensures how.Equal? ==> Nondecreasing(r.value)
    ensures how.StdDev? ==> forall i :: 0 <= i < 6 ==> st.min <= r.value[i] <= st.max
    ensures how.Jenks? ==> forall i :: 1 <= i < 5 ==>
      r.value[i] == (Sorting.SortBy(st.centers, RealLe)[i - 1] + Sorting.SortBy(st.centers, RealLe)[i]) / 2.0
  {
    match how
    case Custom =>
      if custom.None? || |custom.value| != 6 then Err(CustomBreaksError)
      else Ok(custom.value)
    case Quantiles => Ok(st.percentiles)
    case Equal => Ok(Linspace6(st.min, st.max))
    case Jenks => Ok(JenksBreaks(st))
    case StdDev => Ok(StdDevBreaks(st))
    case UnknownMethod(_) => Err(UnknownMethodError)
  }

  /** The sample bounds around the midpoints of the five sorted cluster centres. */
  function JenksBreaks(st: SampleStats): (r: seq<real>)
    requires st.Valid()
    ensures |r| == 6 && r[0] == st.min && r[5] == st.max
    ensures forall i :: 1 <= i < 5 ==>
      r[i] == (Sorting.SortBy(st.centers, RealLe)[i - 1] + Sorting.SortBy(st.centers, RealLe)[i]) / 2.0
  {
    var c := Sorting.SortBy(st.centers, RealLe);
    var r := [st.min, (c[0] + c[1]) / 2.0, (c[1] + c[2]) / 2.0, (c[2] + c[3]) / 2.0, (c[3] + c[4]) / 2.0, st.max];
    assert forall i :: 1 <= i < 5 ==> r[i] == (c[i - 1] + c[i]) / 2.0 by {
      assert r[1] == (c[0] + c[1]) / 2.0 && r[2] == (c[1] + c[2]) / 2.0;
      assert r[3] == (c[2] + c[3]) / 2.0 && r[4] == (c[3] + c[4]) / 2.0;
    }
    r
  }

  /** The mean at -1, -0.5, +0.5 and +1 deviations between the sample bounds, each clipped into them. */
  function StdDevBreaks(st: SampleStats): (r: seq<real>)
    requires st.Valid()
    ensures |r| == 6 && r[0] == st.min && r[5] == st.max
    ensures forall i :: 0 <= i < 6 ==> st.min <= r[i] <= st.max
  {
    var raw := [st.min, st.mean - st.std, st.mean - 0.5 * st.std, st.mean + 0.5 * st.std, st.mean + st.std, st.max];
    seq(6, i requires 0 <= i < 6 => ClipReal(raw[i], st.min, st.max))
  }

  /** Class `i` (0-based): `[b0, b1]` for the first, `(b_i, b_{i+1}]` for the others. */
  predicate InClass(v: real, b: seq<real>, i: nat)
    requires |b| == 6 && i < 5
  {
    if i == 0 then b[0] <= v <= b[1] else b[i] < v <= b[i + 1]
  }

  /** The category after the loop has applied classes `0 .. n-1`: the last class that matched, or 0. */
  function CategoryUpTo(v: real, b: seq<real>, n: nat): (k: int)
    requires |b| == 6 && n <= 5
    ensures 0 <= k <= n
    ensures k > 0 ==> InClass(v, b, k - 1) && forall i :: k <= i < n ==> !InClass(v, b, i)
    ensures k == 0 ==> forall i :: 0 <= i < n ==> !InClass(v, b, i)
  {
    if n == 0 then 0 else if InClass(v, b, n - 1) then n else CategoryUpTo(v, b, n - 1)
  }

  function Category(v: real, b: seq<real>): int
    requires |b| == 6
  {
    CategoryUpTo(v, b, 5)
  }

  /** With ordered breaks the classes partition `[b0, b5]`: category k exactly on class k, 0 outside. */
  lemma CategoriesPartition(v: real, b: seq<real>)
    requires |b| == 6 && Nondecreasing(b)
    ensures Category(v, b) == 0 <==> v < b[0] || v > b[5]
    ensures forall i :: 0 <= i < 5 ==> (Category(v, b) == i + 1 <==> InClass(v, b, i))
  {
    var k := Category(v, b);
    if k > 0 {
      forall i | 0 <= i < 5 && i != k - 1 ensures !InClass(v, b, i) {
        if i < k - 1 {
          assert b[i + 1] <= b[k - 1];
        } else {
          assert b[k] <= b[i];
        }
      }
    } else {
      if b[0] <= v <= b[5] {
        var i := if v <= b[1] then 0 else if v <= b[2] then 1 else if v <= b[3] then 2 else if v <= b[4] then 3 else 4;
        assert InClass(v, b, i);
      }
    }
  }

  /** The classification loop of `classify_continuous_raster`: class by class, each mask overwrites the categories. */
  method ClassifyPixels(values: seq<real>, b: seq<real>) returns (cats: seq<int>)
    requires |b| == 6
    ensures |cats| == |values|
    ensures forall j :: 0 <= j < |values| ==> cats[j] == Category(values[j], b)
  {
    var arr := new int[|values|](_ => 0);
    for i := 0 to 5
      invariant forall j :: 0 <= j < arr.Length ==> arr[j] == CategoryUpTo(values[j], b, i)
    {
      ClassPass(arr, values, b, i);
    }
    cats := arr[..];
  }

  /** One pass of that loop: the pixels in class `i` take category `i + 1`, the others keep theirs. */
  method ClassPass(arr: array<int>, values: seq<real>, b: seq<real>, i: nat)
    modifies arr
    requires |b| == 6 && i < 5 && arr.Length == |values|
    requires forall j :: 0 <= j < arr.Length ==> arr[j] == CategoryUpTo(values[j], b, i)
    ensures forall j :: 0 <= j < arr.Length ==> arr[j] == CategoryUpTo(values[j], b, i + 1)
  {
    for j := 0 to arr.Length
      invariant forall k :: 0 <= k < j ==> arr[k] == CategoryUpTo(values[k], b, i + 1)
      invariant forall k :: j <= k < arr.Length ==> arr[k] == CategoryUpTo(values[k], b, i)
    {
      if InClass(values[j], b, i) {
        arr[j] := i + 1;
      }
    }
  }

  /** The valid pixels of the clipped area: defined (not NaN) and not the NoData value. */
  function ValidPixels(pixels: seq<Option<real>>, nodata: Option<real>): (r: seq<real>)
    ensures forall v :: v in r <==> Some(v) in pixels && (nodata.None? || v != nodata.value)
    ensures |r| <= |pixels|
  {
    if |pixels| == 0 then []
    else
      (if pixels[0].Some? && (nodata.None? || pixels[0].value != nodata.value) then [pixels[0].value] else []) +
      ValidPixels(pixels[1..], nodata)
  }

  /** The result table: categories 1..5 with their pixel counts, 0 where a category is absent. */
  function CategoryCounts(cats: seq<int>): (t: seq<(int, nat)>)
    ensures |t| == 5 && forall i :: 0 <= i < 5 ==> t[i] == (i + 1, Occurrences(cats, i + 1))
  {
    seq(5, i requires 0 <= i < 5 => (i + 1, Occurrences(cats, i + 1)))
  }

  function SumCounts(t: seq<(int, nat)>): nat
  {
    if |t| == 0 then 0 else t[0].1 + SumCounts(t[1..])
  }

  /** The five counts add up to the classified pixels, those outside category 0. */
  lemma {:induction false} CountsCoverClassified(cats: seq<int>)
    requires forall j :: 0 <= j < |cats| ==> 0 <= cats[j] <= 5
    ensures SumCounts(CategoryCounts(cats)) == |cats| - Occurrences(cats, 0)
  {
    var t := CategoryCounts(cats);
    assert SumCounts(t) == t[0].1 + t[1].1 + t[2].1 + t[3].1 + t[4].1 by {
      assert SumCounts(t[5 ..]) == 0;
      assert t[4 ..][1 ..] == t[5 ..];
      assert SumCounts(t[4 ..]) == t[4].1;
      assert t[3 ..][1 ..] == t[4 ..];
      assert SumCounts(t[3 ..]) == t[3].1 + t[4].1;
      assert t[2 ..][1 ..] == t[3 ..];
      assert SumCounts(t[2 ..]) == t[2].1 + t[3].1 + t[4].1;
      assert t[1 ..][1 ..] == t[2 ..];
      assert SumCounts(t[1 ..]) == t[1].1 + t[2].1 + t[3].1 + t[4].1;
    }
    OccurrencesSplit(cats);
  }

  lemma {:induction false} OccurrencesSplit(cats: seq<int>)
    requires forall j :: 0 <= j < |cats| ==> 0 <= cats[j] <= 5
    ensures Occurrences(cats, 0) + Occurrences(cats, 1) + Occurrences(cats, 2) + Occurrences(cats, 3) +
            Occurrences(cats, 4) + Occurrences(cats, 5) == |cats|
  {
    if |cats| > 0 {
      var init, last := cats[..|cats| - 1], cats[|cats| - 1];
      assert cats == init + [last];
      OccurrencesSplit(init);
      OccurrencesSnoc(init, last, 0);
      OccurrencesSnoc(init, last, 1);
      OccurrencesSnoc(init, last, 2);
      OccurrencesSnoc(init, last, 3);
      OccurrencesSnoc(init, last, 4);
      OccurrencesSnoc(init, last, 5);
    }
  }

  lemma OccurrencesSnoc<T>(xs: seq<T>, x: T, v: T)
    ensures Occurrences(xs + [x], v) == Occurrences(xs, v) + (if x == v then 1 else 0)
  {
    assert multiset(xs + [x]) == multiset(xs) + multiset{x};
  }

  /**
   * `classify_continuous_raster` after the sampling step: the breaks, the
   * valid pixels of the area (none raises ValueError), their categories
   * and the five-row count table.
   */
  method ClassifyContinuousRaster(area: seq<Option<real>>, nodata: Option<real>, how: BreakMethod,
                                  custom: Option<seq<real>>, st: SampleStats)
    returns (r: Result<seq<(int, nat)>>)
    requires st.Valid()
    ensures ClassBreaks(how, custom, st).Err? ==> r.Err?
    ensures ClassBreaks(how, custom, st).Ok? ==> (r.Err? <==> |ValidPixels(area, nodata)| == 0)
    ensures r.Ok? ==> var b := ClassBreaks(how, custom, st).value;
                      var px := ValidPixels(area, nodata);
      |r.value| == 5 &&
      (forall i :: 0 <= i < 5 ==>
        r.value[i].0 == i + 1 &&
        r.value[i].1 == Occurrences(seq(|px|, j requires 0 <= j < |px| => Category(px[j], b)), i + 1)) &&
      SumCounts(r.value) == |px| - Occurrences(seq(|px|, j requires 0 <= j < |px| => Category(px[j], b)), 0)
  {
    var breaks := ClassBreaks(how, custom, st);
    if breaks.Err? {
      return Err(breaks.error);
    }
    var px := ValidPixels(area, nodata);
    if |px| == 0 {
      return Err("ValueError: no valid pixels intersect the polygon");
    }
    var cats := ClassifyPixels(px, breaks.value);
    assert cats == seq(|px|, j requires 0 <= j < |px| => Category(px[j], breaks.value));
    CountsCoverClassified(cats);
    r := Ok(CategoryCounts(cats));
  }

  // ---------------------------------------------------------------------
  // Per-polygon pixel statistics
  // ---------------------------------------------------------------------

  datatype Stat = SumStat | MeanStat | MinStat | MaxStat | CountStat | StdStat | OtherStat(name: string)

  /** A result: a number, NaN, or the standard deviation of the given population variance. */
  datatype StatValue = Num(x: real) | NaN | StdOf(variance: real)

  function SumReal(xs: seq<real>): real
  {
    if |xs| == 0 then 0.0 else xs[0] + SumReal(xs[1..])
  }

  function SeqMin(xs: seq<real>): (m: real)
    requires |xs| > 0
    ensures m in xs && forall v :: v in xs ==> m <= v
  {
    assert xs == [xs[0]] + xs[1..];
    if |xs| == 1 then xs[0] else MinReal(xs[0], SeqMin(xs[1..]))
  }

  function SeqMax(xs: seq<real>): (m: real)
    requires |xs| > 0
    ensures m in xs && forall v :: v in xs ==> v <= m
  {
    assert xs == [xs[0]] + xs[1..];
    if |xs| == 1 then xs[0] else MaxReal(xs[0], SeqMax(xs[1..]))
  }

  /** The mean of non-empty values, between their least and greatest. */
  function Mean(values: seq<real>): (m: real)
    requires |values| > 0
    ensures SeqMin(values) <= m <= SeqMax(values)
  {
    IndexBounds(values, SeqMin(values), SeqMax(values));
    SumBounds(values, SeqMin(values), SeqMax(values));
    MeanBetween(SumReal(values), |values| as real, SeqMin(values), SeqMax(values));
    SumReal(values) / |values| as real
  }

  /** The population variance of non-empty values (`ddof = 0`). */
  function Variance(values: seq<real>): (v: real)
    requires |values| > 0
    ensures v >= 0.0
  {
    SumSqDev(values, SumReal(values) / |values| as real) / |values| as real
  }

  function SumSqDev(xs: seq<real>, mean: real): (s: real)
    ensures s >= 0.0
  {
    if |xs| == 0 then 0.0
    else
      var d := xs[0] - mean;
      SquareNonnegative(d);
      d * d + SumSqDev(xs[1..], mean)
  }

  lemma SquareNonnegative(d: real)
    ensures d * d >= 0.0
  {
    if d < 0.0 {
      assert d * d == (-d) * (-d);
    }
  }

  /** Bounds on the members of a sequence are bounds on each of its elements. */
  lemma IndexBounds(xs: seq<real>, lo: real, hi: real)
    requires forall v :: v in xs ==> lo <= v <= hi
    ensures forall i :: 0 <= i < |xs| ==> lo <= xs[i] <= hi
  {
    forall i | 0 <= i < |xs| ensures lo <= xs[i] <= hi {
      assert xs[i] in xs;
    }
  }

  /** The sum of values never below `lo` is at least `n · lo`, and likewise above. */
  lemma {:induction false} SumBounds(xs: seq<real>, lo: real, hi: real)
    requires forall i :: 0 <= i < |xs| ==> lo <= xs[i] <= hi
    ensures (|xs| as real) * lo <= SumReal(xs) <= (|xs| as real) * hi
  {
    if |xs| > 0 {
      SumBounds(xs[1..], lo, hi);
      AddBounded(xs[0], SumReal(xs[1..]), (|xs| - 1) as real, lo, hi);
    }
  }

  /** Adding one more value in `[lo, hi]` to a sum of `n` such values. */
  lemma AddBounded(x: real, rest: real, n: real, lo: real, hi: real)
    requires lo <= x <= hi && n * lo <= rest <= n * hi
    ensures (n + 1.0) * lo <= x + rest <= (n + 1.0) * hi
  {
    assert (n + 1.0) * lo == n * lo + lo;
    assert (n + 1.0) * hi == n * hi + hi;
  }

  /**
   * The statistic of one polygon's masked pixels: an empty window gives 0
   * for 'sum' and NaN otherwise; an unsupported statistic raises, and the
   * caught error gives NaN.
   */
  function PolygonStat(stat: Stat, values: seq<real>): (r: StatValue)
    ensures |values| == 0 ==> r == (if stat.SumStat? then Num(0.0) else NaN)
    ensures stat.OtherStat? ==> r.NaN?
    ensures stat.SumStat? ==> r == Num(SumReal(values))
    ensures |values| > 0 && stat.CountStat? ==> r == Num(|values| as real)
    ensures |values| > 0 && stat.MinStat? ==> r.Num? && r.x in values && forall v :: v in values ==> r.x <= v
    ensures |values| > 0 && stat.MaxStat? ==> r.Num? && r.x in values && forall v :: v in values ==> v <= r.x
    ensures |values| > 0 && stat.MeanStat? ==> r.Num? && SeqMin(values) <= r.x <= SeqMax(values)
    ensures |values| > 0 && stat.MeanStat? ==> r == Num(SumReal(values) / (|values| as real))
    ensures |values| > 0 && stat.StdStat? ==> r.StdOf? && r.variance >= 0.0
    ensures |values| > 0 && stat.StdStat? ==>
              r == StdOf(SumSqDev(values, SumReal(values) / (|values| as real)) / (|values| as real))
  {
    if |values| == 0 then (if stat.SumStat? then Num(0.0) else NaN)
    else
      var n := |values| as real;
      match stat
      case SumStat => Num(SumReal(values))
      case MeanStat => Num(Mean(values))
      case MinStat => Num(SeqMin(values))
      case MaxStat => Num(SeqMax(values))
      case CountStat => Num(n)
      case StdStat => StdOf(Variance(values))
      case OtherStat(_) => NaN
  }

  /** Pixels that all hold one value have that value as their mean and a variance of 0. */
  lemma ConstantPixelsHaveNoSpread(values: seq<real>, c: real)
    requires |values| > 0 && forall i :: 0 <= i < |values| ==> values[i] == c
    ensures Mean(values) == c && Variance(values) == 0.0
  {
    ConstantSum(values, c);
    var n := |values| as real;
    assert SumReal(values) / n == c;
    ConstantNoDeviation(values, c);
  }

  lemma {:induction false} ConstantSum(xs: seq<real>, c: real)
    requires forall i :: 0 <= i < |xs| ==> xs[i] == c
    ensures SumReal(xs) == (|xs| as real) * c
  {
    if |xs| > 0 {
      ConstantSum(xs[1..], c);
    }
  }

  lemma {:induction false} ConstantNoDeviation(xs: seq<real>, c: real)
    requires forall i :: 0 <= i < |xs| ==> xs[i] == c
    ensures SumSqDev(xs, c) == 0.0
  {
    if |xs| > 0 {
      ConstantNoDeviation(xs[1..], c);
    }
  }

  lemma MeanBetween(sum: real, n: real, lo: real, hi: real)
    requires n > 0.0 && n * lo <= sum <= n * hi
    ensures lo <= sum / n <= hi
  {
  }

  /** `polygon_pixel_stats`: one result per polygon, in order. */
  method PolygonPixelStats(polygons: seq<seq<real>>, stat: Stat) returns (results: seq<StatValue>)
    ensures |results| == |polygons|
    ensures forall i :: 0 <= i < |polygons| ==> results[i] == PolygonStat(stat, polygons[i])
  {
    results := [];
    for i := 0 to |polygons|
      invariant |results| == i
      invariant forall k :: 0 <= k < i ==> results[k] == PolygonStat(stat, polygons[k])
    {
      results := results + [PolygonStat(stat, polygons[i])];
    }
  }
}
