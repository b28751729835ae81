/**
 * Watershed delineation on a D8 flow-direction raster: the Esri direction
 * codes, the LRU cache of raster tiles, the snap of the outlet to the
 * drainage network, the upstream breadth-first search and the buffered
 * clip window of the result.
 */
module DelimitacionCuenca {
  import opened Wrappers
  import opened PyNum

  type Cell = (int, int)

  // ---------------------------------------------------------------------
  // D8 codes (Esri): 1=E, 2=SE, 4=S, 8=SW, 16=W, 32=NW, 64=N, 128=NE
  // ---------------------------------------------------------------------

  const ValidCodes: set<int> := {1, 2, 4, 8, 16, 32, 64, 128}

  /** The (row, column) step to the neighbour a cell with this code drains into. */
  function FlowOffset(code: int): (d: Option<(int, int)>)
    ensures d.Some? <==> code in ValidCodes
    ensures d.Some? ==> -1 <= d.value.0 <= 1 && -1 <= d.value.1 <= 1 && d.value != (0, 0)
  {
    if code == 1 then Some((0, 1))
    else if code == 2 then Some((1, 1))
    else if code == 4 then Some((1, 0))
    else if code == 8 then Some((1, -1))
    else if code == 16 then Some((0, -1))
    else if code == 32 then Some((-1, -1))
    else if code == 64 then Some((-1, 0))
    else if code == 128 then Some((-1, 1))
    else None
  }

  /** `UPSTREAM_NEIGHBORS`: each neighbour offset and the code that neighbour has when it drains into the centre. */
  const UpstreamNeighbors: seq<(int, int, int)> := [
    (-1, -1, 2), (-1, 0, 4), (-1, 1, 8), (0, -1, 1), (0, 1, 16), (1, -1, 128), (1, 0, 64), (1, 1, 32)]

  /**
   * Every entry's code is a D8 code that points from the neighbour back to
   * the centre, the eight offsets are distinct, and every D8 code is used.
   */
  lemma UpstreamNeighborsPointBack()
    ensures |UpstreamNeighbors| == 8
    ensures forall k :: 0 <= k < 8 ==>
      UpstreamNeighbors[k].2 in ValidCodes &&
      FlowOffset(UpstreamNeighbors[k].2) == Some((-UpstreamNeighbors[k].0, -UpstreamNeighbors[k].1))
    ensures forall k, m :: 0 <= k < m < 8 ==>
      (UpstreamNeighbors[k].0, UpstreamNeighbors[k].1) != (UpstreamNeighbors[m].0, UpstreamNeighbors[m].1)
    ensures forall code :: code in ValidCodes ==> exists k :: 0 <= k < 8 && UpstreamNeighbors[k].2 == code
  {
    assert UpstreamNeighbors[0].2 == 2 && UpstreamNeighbors[1].2 == 4 && UpstreamNeighbors[2].2 == 8;
    assert UpstreamNeighbors[3].2 == 1 && UpstreamNeighbors[4].2 == 16 && UpstreamNeighbors[5].2 == 128;
    assert UpstreamNeighbors[6].2 == 64 && UpstreamNeighbors[7].2 == 32;
  }

  /** The flow-direction raster: `height` rows of `width` codes. */
  datatype FlowDir = FlowDir(height: nat, width: nat, code: seq<seq<int>>)
  {
    predicate Valid()
    {
      |code| == height && forall r :: 0 <= r < height ==> |code[r]| == width
    }

    predicate Inside(p: Cell)
    {
      0 <= p.0 < height && 0 <= p.1 < width
    }

    function At(p: Cell): int
      requires Valid() && Inside(p)
    {
      code[p.0][p.1]
    }

    /** The cell `p` drains into, when its code is a D8 code (it may lie outside the raster). */
    function Next(p: Cell): (q: Option<Cell>)
      requires Valid() && Inside(p)
      ensures q.Some? <==> At(p) in ValidCodes
    {
      match FlowOffset(At(p))
      case None => None
      case Some(d) => Some((p.0 + d.0, p.1 + d.1))
    }
  }

  /** The neighbour of `q` at offset `k` of `UpstreamNeighbors`. */
  function NeighborAt(q: Cell, k: nat): Cell
    requires k < 8
  {
    (q.0 + UpstreamNeighbors[k].0, q.1 + UpstreamNeighbors[k].1)
  }

  /** The D8 code of a step, the inverse of `FlowOffset`. */
  function CodeFor(d: (int, int)): int
  {
    if d == (0, 1) then 1 else if d == (1, 1) then 2 else if d == (1, 0) then 4 else if d == (1, -1) then 8
    else if d == (0, -1) then 16 else if d == (-1, -1) then 32 else if d == (-1, 0) then 64
    else if d == (-1, 1) then 128 else 0
  }

  lemma CodeForInverts(code: int, d: (int, int))
    requires FlowOffset(code) == Some(d)
    ensures code == CodeFor(d)
  {
  }

  /** The need code of offset `k` drains back to the centre. */
  lemma NeedOffset(k: nat)
    requires k < 8
    ensures FlowOffset(UpstreamNeighbors[k].2) == Some((-UpstreamNeighbors[k].0, -UpstreamNeighbors[k].1))
  {
    if k == 0 {} else if k == 1 {} else if k == 2 {} else if k == 3 {}
    else if k == 4 {} else if k == 5 {} else if k == 6 {} else {}
  }

  /** A neighbour joins `q`'s basin exactly when its code is the need code of its offset: it then drains into `q`. */
  lemma NeedCodeMeansDrainsInto(g: FlowDir, q: Cell, k: nat)
    requires g.Valid() && k < 8 && g.Inside(NeighborAt(q, k))
    ensures g.At(NeighborAt(q, k)) == UpstreamNeighbors[k].2 <==> g.Next(NeighborAt(q, k)) == Some(q)
  {
    var p := NeighborAt(q, k);
    var d := (-UpstreamNeighbors[k].0, -UpstreamNeighbors[k].1);
    NeedOffset(k);
    CodeForInverts(UpstreamNeighbors[k].2, d);
    if g.Next(p) == Some(q) {
      var e := FlowOffset(g.At(p)).value;
      assert e == d;
      CodeForInverts(g.At(p), d);
    }
  }

  /** The entry of `UpstreamNeighbors` that carries a given D8 code. */
  function NeighborIndex(code: int): (k: nat)
    requires code in ValidCodes
    ensures k < 8 && UpstreamNeighbors[k].2 == code
  {
    if code == 2 then 0 else if code == 4 then 1 else if code == 8 then 2 else if code == 1 then 3
    else if code == 16 then 4 else if code == 128 then 5 else if code == 64 then 6 else 7
  }

  /** Any cell draining into `q` is one of its eight upstream neighbours, with that offset's need code. */
  lemma DrainingCellIsNeighbor(g: FlowDir, p: Cell, q: Cell) returns (k: nat)
    requires g.Valid() && g.Inside(p) && g.Next(p) == Some(q)
    ensures k < 8 && p == NeighborAt(q, k) && g.At(p) == UpstreamNeighbors[k].2
  {
    k := NeighborIndex(g.At(p));
    NeedOffset(k);
  }

  // ---------------------------------------------------------------------
  // The tile cache
  // ---------------------------------------------------------------------

  /** The window of one tile: its offset and its size after clipping at the raster edge. */
  datatype Tile = Tile(rowOff: int, colOff: int, h: nat, w: nat)

  /** `l` without the key `x`. */
  function Without(l: seq<Cell>, x: Cell): (r: seq<Cell>)
    ensures forall y :: y in r <==> y in l && y != x
    ensures x in l && (forall i, j :: 0 <= i < j < |l| ==> l[i] != l[j]) ==> |r| == |l| - 1
    ensures x !in l ==> r == l
    ensures (forall i, j :: 0 <= i < j < |l| ==> l[i] != l[j]) ==> forall i, j :: 0 <= i < j < |r| ==> r[i] != r[j]
  {
    if l == [] then []
    else if l[0] == x then
      assert x !in l[1..] || exists j :: 0 < j < |l| && l[j] == l[0];
      Without(l[1..], x)
    else
      assert l == [l[0]] + l[1..];
      assert (forall i, j :: 0 <= i < j < |l| ==> l[i] != l[j]) ==> l[0] !in l[1..];
      [l[0]] + Without(l[1..], x)
  }

  predicate Distinct(l: seq<Cell>)
  {
    forall i, j :: 0 <= i < j < |l| ==> l[i] != l[j]
  }

  /** `TileCache`: the keys of the cached tiles, least recently used first (tile contents are a function of the key). */
  class TileCache {
    const height: nat
    const width: nat
    const tileH: nat
    const tileW: nat
    const maxTiles: nat
    var lru: seq<Cell>

    ghost predicate Valid()
      reads this
    {
      && tileH > 0 && tileW > 0
      && |lru| <= maxTiles
      && Distinct(lru)
      && forall i :: 0 <= i < |lru| ==> ReadTile(lru[i].0, lru[i].1).Some?
    }

    /**
     * A block shape of `None` stands for the failing `ds.block_shapes`; a
     * zero block side falls back to the preferred block, then at least 512.
     */
    constructor (height: nat, width: nat, blockShape: Option<(nat, nat)>, preferredBlock: nat, maxTiles: nat)
      requires preferredBlock > 0
      ensures Valid() && lru == []
      ensures this.height == height && this.width == width && this.maxTiles == maxTiles
      ensures blockShape.None? ==> tileH == preferredBlock && tileW == preferredBlock
      ensures blockShape.Some? ==>
        tileH == Max(if blockShape.value.0 == 0 then preferredBlock else blockShape.value.0, 512) &&
        tileW == Max(if blockShape.value.1 == 0 then preferredBlock else blockShape.value.1, 512)
    {
      this.height := height;
      this.width := width;
      if blockShape.None? {
        tileH := preferredBlock;
        tileW := preferredBlock;
      } else {
        var (bh, bw) := blockShape.value;
        tileH := Max(if bh == 0 then preferredBlock else bh, 512);
        tileW := Max(if bw == 0 then preferredBlock else bw, 512);
      }
      this.maxTiles := maxTiles;
      lru := [];
    }

    /** `tile_index`: the tile of a cell and the cell's offset inside it. */
    function TileIndex(row: int, col: int): (r: (int, int, int, int))
      requires tileH > 0 && tileW > 0
      ensures row == r.0 * tileH + r.2 && 0 <= r.2 < tileH
      ensures col == r.1 * tileW + r.3 && 0 <= r.3 < tileW
    {
      var tr := row / tileH;
      var tc := col / tileW;
      (tr, tc, row - tr * tileH, col - tc * tileW)
    }

    /** `_read_tile`: the tile's window clipped to the raster, or `None` when nothing of it is left. */
    function ReadTile(tr: int, tc: int): (t: Option<Tile>)
    {
      var rowOff := tr * tileH;
      var colOff := tc * tileW;
      var h := Min(tileH, height - rowOff);
      var w := Min(tileW, width - colOff);
      if h <= 0 || w <= 0 then None else Some(Tile(rowOff, colOff, h, w))
    }

    /** The tile of every cell inside the raster can be read, and it holds that cell. */
    lemma InsideTileReads(row: int, col: int)
      requires tileH > 0 && tileW > 0
      requires 0 <= row < height && 0 <= col < width
      ensures var (tr, tc, lr, lc) := TileIndex(row, col);
        ReadTile(tr, tc).Some? && lr < ReadTile(tr, tc).value.h && lc < ReadTile(tr, tc).value.w
    {
    }

    lemma CachedTilesRead(from: seq<Cell>, to: seq<Cell>)
      requires forall y :: y in from ==> y in lru || ReadTile(y.0, y.1).Some?
      requires forall i :: 0 <= i < |lru| ==> ReadTile(lru[i].0, lru[i].1).Some?
      requires forall y :: y in to ==> y in from
      ensures forall i :: 0 <= i < |to| ==> ReadTile(to[i].0, to[i].1).Some?
    {
      forall i | 0 <= i < |to| ensures ReadTile(to[i].0, to[i].1).Some? {
        assert to[i] in from;
        if to[i] in lru {
          var j :| 0 <= j < |lru| && lru[j] == to[i];
        }
      }
    }

    /**
     * `get`: a hit moves the key to most recent; a miss reads the tile and,
     * when it exists, appends it and evicts the least recent key beyond
     * `maxTiles`; a missing tile is not cached.
     */
    method Get(tr: int, tc: int) returns (t: Option<Tile>)
      requires Valid()
      modifies this
      ensures Valid()
      ensures t == ReadTile(tr, tc)
      ensures (tr, tc) in old(lru) ==> lru == Without(old(lru), (tr, tc)) + [(tr, tc)]
      ensures (tr, tc) !in old(lru) && t.None? ==> lru == old(lru)
      ensures (tr, tc) !in old(lru) && t.Some? ==> lru == Bounded(old(lru) + [(tr, tc)], maxTiles)
    {
      var key := (tr, tc);
      if key in lru {
        HitReordersOnly(lru, key);
        CachedTilesRead(lru, Without(lru, key) + [key]);
        lru := Without(lru, key) + [key];
        return ReadTile(tr, tc);
      }
      t := ReadTile(tr, tc);
      if t.None? {
        return None;
      }
      MissKeepsBound(lru, key, maxTiles);
      CachedTilesRead(lru + [key], Bounded(lru + [key], maxTiles));
      lru := lru + [key];
      if |lru| > maxTiles {
        lru := lru[1..];
      }
    }
  }

  /** `popitem(last=False)` once when the dictionary outgrows `max`. */
  function Bounded(l: seq<Cell>, max: nat): (r: seq<Cell>)
    ensures |l| <= max ==> r == l
    ensures |l| > max ==> r == l[1..]
  {
    if |l| > max then l[1..] else l
  }

  /** After a hit the same tiles are cached, with the key now the most recent. */
  lemma HitReordersOnly(l: seq<Cell>, key: Cell)
    requires Distinct(l) && key in l
    ensures var r := Without(l, key) + [key];
      |r| == |l| && r[|r| - 1] == key && (forall y :: y in r <==> y in l) && Distinct(r)
  {
  }

  /** After a miss the cache holds at most `max` tiles, and the new key is the most recent unless `max` is 0. */
  lemma MissKeepsBound(l: seq<Cell>, key: Cell, max: nat)
    requires |l| <= max && key !in l && Distinct(l)
    ensures var r := Bounded(l + [key], max);
      |r| <= max && (max > 0 ==> r[|r| - 1] == key) && (forall y :: y in r ==> y in l || y == key) && Distinct(r)
  {
  }

  // ---------------------------------------------------------------------
  // The basin: cells draining to the seed
  // ---------------------------------------------------------------------

  /** `p` reaches `seed` by following its flow codes for at most `n` steps, inside the raster. */
  ghost predicate DrainsWithin(g: FlowDir, p: Cell, seed: Cell, n: nat)
    requires g.Valid()
    decreases n
  {
    g.Inside(p) && (p == seed || (n > 0 && g.Next(p).Some? && DrainsWithin(g, g.Next(p).value, seed, n - 1)))
  }

  ghost predicate InBasinOf(g: FlowDir, p: Cell, seed: Cell)
    requires g.Valid()
  {
    exists n: nat :: DrainsWithin(g, p, seed, n)
  }

  /** The basin cells and their bounding rows and columns, `(min_r, max_r, min_c, max_c)`. */
  datatype Basin = Basin(cells: set<Cell>, minR: int, maxR: int, minC: int, maxC: int)

  /** The box holds every cell of the basin and each of its four sides touches one. */
  predicate TightBox(b: Basin)
  {
    && (forall p :: p in b.cells ==> b.minR <= p.0 <= b.maxR && b.minC <= p.1 <= b.maxC)
    && (exists p :: p in b.cells && p.0 == b.minR) && (exists p :: p in b.cells && p.0 == b.maxR)
    && (exists p :: p in b.cells && p.1 == b.minC) && (exists p :: p in b.cells && p.1 == b.maxC)
  }

  /** Every raster cell, as a finite set. */
  function AllCells(g: FlowDir): (s: set<Cell>)
    ensures forall p :: p in s <==> g.Inside(p)
  {
    set r, c | 0 <= r < g.height && 0 <= c < g.width :: (r, c)
  }

  lemma DrainsLonger(g: FlowDir, p: Cell, seed: Cell, n: nat)
    requires g.Valid() && g.Inside(p) && g.Next(p).Some? && DrainsWithin(g, g.Next(p).value, seed, n)
    ensures DrainsWithin(g, p, seed, n + 1)
  {
  }

  lemma FewerUnvisited(all: set<Cell>, before: set<Cell>, after: set<Cell>)
    requires before <= after <= all && after != before
    ensures |all - after| < |all - before|
  {
    var x :| x in after && x !in before;
    assert all - before == (all - after) + (after - before);
    assert (all - after) * (after - before) == {};
    assert x in after - before;
  }

  /** A basin cell whose every upstream neighbour is in `cells` is closed: then every cell draining to the seed is. */
  lemma {:induction false} ClosedSetHoldsBasin(g: FlowDir, seed: Cell, cells: set<Cell>, p: Cell, n: nat)
    requires g.Valid() && seed in cells
    requires forall q, x :: q in cells && g.Inside(x) && g.Next(x) == Some(q) ==> x in cells
    requires DrainsWithin(g, p, seed, n)
    ensures p in cells
    decreases n
  {
    if p != seed {
      ClosedSetHoldsBasin(g, seed, cells, g.Next(p).value, n - 1);
    }
  }

  /** The search state: `inbasin` ⊆ `visited`, a visited cell outside the basin has a non-D8 code, and every basin cell drains to the seed. */
  ghost predicate Marks(g: FlowDir, seed: Cell, visited: set<Cell>, inbasin: set<Cell>, steps: map<Cell, nat>)
    requires g.Valid()
  {
    && SoundMarks(g, seed, visited, inbasin, steps)
    && (forall p :: p in visited ==> p in inbasin || g.At(p) !in ValidCodes)
  }

  /** `inbasin` ⊆ `visited` ⊆ the raster, and `steps` witnesses that every basin cell drains to the seed. */
  ghost predicate SoundMarks(g: FlowDir, seed: Cell, visited: set<Cell>, inbasin: set<Cell>, steps: map<Cell, nat>)
    requires g.Valid()
  {
    && inbasin <= visited && visited <= AllCells(g) && seed in inbasin
    && (forall p :: p in inbasin ==> p in steps && DrainsWithin(g, p, seed, steps[p]))
  }

  /** The queue holds exactly the basin cells found so far. */
  predicate Queued(queue: seq<Cell>, inbasin: set<Cell>)
  {
    (forall i :: 0 <= i < |queue| ==> queue[i] in inbasin) && (forall p :: p in inbasin ==> p in queue)
  }

  /**
   * One neighbour `k` of `q` on the corrected pass: an unvisited inside
   * cell is marked visited when its code is not a D8 code, and joins the
   * basin and the queue when its code drains into `q`; otherwise nothing
   * changes.
   */
  method VisitNeighbor(g: FlowDir, seed: Cell, q: Cell, k: nat, visited0: set<Cell>, inbasin0: set<Cell>, queue0: seq<Cell>,
                       ghost steps0: map<Cell, nat>)
    returns (visited: set<Cell>, inbasin: set<Cell>, queue: seq<Cell>, ghost steps: map<Cell, nat>)
    requires g.Valid() && q in inbasin0 && k < 8
    requires Marks(g, seed, visited0, inbasin0, steps0) && Queued(queue0, inbasin0)
    ensures Marks(g, seed, visited, inbasin, steps) && Queued(queue, inbasin)
    ensures var p := NeighborAt(q, k);
      if g.Inside(p) && p !in visited0 && g.At(p) !in ValidCodes then
        visited == visited0 + {p} && inbasin == inbasin0 && queue == queue0
      else if g.Inside(p) && p !in visited0 && g.At(p) == UpstreamNeighbors[k].2 then
        visited == visited0 + {p} && inbasin == inbasin0 + {p} && queue == queue0 + [p]
      else
        visited == visited0 && inbasin == inbasin0 && queue == queue0
    ensures g.Inside(NeighborAt(q, k)) && g.At(NeighborAt(q, k)) == UpstreamNeighbors[k].2 ==> NeighborAt(q, k) in inbasin
  {
    visited, inbasin, queue, steps := visited0, inbasin0, queue0, steps0;
    var (dr, dc, need) := UpstreamNeighbors[k];
    var p := (q.0 + dr, q.1 + dc);
    assert p == NeighborAt(q, k);
    if g.Inside(p) && p !in visited {
      var code := g.At(p);
      if code !in ValidCodes {
        visited := visited + {p};
      } else if code == need {
        NeedCodeMeansDrainsInto(g, q, k);
        DrainsLonger(g, p, seed, steps[q]);
        steps := steps[p := steps[q] + 1];
        inbasin := inbasin + {p};
        visited := visited + {p};
        queue := queue + [p];
      }
    }
  }

  /**
   * One pass over the eight upstream neighbours of `q`: afterwards every
   * inside neighbour that drains into `q` is in the basin.
   */
  method ScanNeighbors(g: FlowDir, seed: Cell, q: Cell, visited0: set<Cell>, inbasin0: set<Cell>, queue0: seq<Cell>,
                       ghost steps0: map<Cell, nat>)
    returns (visited: set<Cell>, inbasin: set<Cell>, queue: seq<Cell>, ghost steps: map<Cell, nat>)
    requires g.Valid() && q in inbasin0
    requires Marks(g, seed, visited0, inbasin0, steps0) && Queued(queue0, inbasin0)
    ensures Marks(g, seed, visited, inbasin, steps) && Queued(queue, inbasin)
    ensures visited0 <= visited && inbasin0 <= inbasin && |queue0| <= |queue| && queue[..|queue0|] == queue0
    ensures |queue| > |queue0| ==> visited != visited0
    ensures forall x :: g.Inside(x) && g.Next(x) == Some(q) ==> x in inbasin
  {
    visited, inbasin, queue, steps := visited0, inbasin0, queue0, steps0;
    var k := 0;
    while k < 8
      invariant 0 <= k <= 8
      invariant Marks(g, seed, visited, inbasin, steps) && Queued(queue, inbasin)
      invariant visited0 <= visited && inbasin0 <= inbasin && |queue0| <= |queue| && queue[..|queue0|] == queue0
      invariant |queue| > |queue0| ==> visited != visited0
      invariant forall j :: 0 <= j < k && g.Inside(NeighborAt(q, j)) && g.At(NeighborAt(q, j)) == UpstreamNeighbors[j].2 ==>
                  NeighborAt(q, j) in inbasin
    {
      ghost var v, b, qu := visited, inbasin, queue;
      visited, inbasin, queue, steps := VisitNeighbor(g, seed, q, k, visited, inbasin, queue, steps);
      if |queue| > |qu| {
        assert queue[..|queue0|] == qu[..|queue0|];
        assert NeighborAt(q, k) in visited && NeighborAt(q, k) !in visited0;
      }
      k := k + 1;
    }
    forall x | g.Inside(x) && g.Next(x) == Some(q) ensures x in inbasin {
      var j := DrainingCellIsNeighbor(g, x, q);
    }
  }

  /** A set closed under upstream neighbours that holds the seed holds the whole basin. */
  lemma ClosedHoldsBasin(g: FlowDir, seed: Cell, cells: set<Cell>)
    requires g.Valid() && seed in cells
    requires forall q, x :: q in cells && g.Inside(x) && g.Next(x) == Some(q) ==> x in cells
    ensures forall p :: InBasinOf(g, p, seed) ==> p in cells
  {
    forall p | InBasinOf(g, p, seed) ensures p in cells {
      var n: nat :| DrainsWithin(g, p, seed, n);
      ClosedSetHoldsBasin(g, seed, cells, p, n);
    }
  }

  /** Every cell draining into one of the first `head` queued cells is in the basin. */
  ghost predicate ClosedUpTo(g: FlowDir, queue: seq<Cell>, head: nat, inbasin: set<Cell>)
    requires g.Valid() && head <= |queue|
  {
    forall i, x :: 0 <= i < head && g.Inside(x) && g.Next(x) == Some(queue[i]) ==> x in inbasin
  }

  lemma ClosedStep(g: FlowDir, queue0: seq<Cell>, queue: seq<Cell>, head: nat, inbasin0: set<Cell>, inbasin: set<Cell>)
    requires g.Valid() && head < |queue0| <= |queue| && queue[..|queue0|] == queue0 && inbasin0 <= inbasin
    requires ClosedUpTo(g, queue0, head, inbasin0)
    requires forall x :: g.Inside(x) && g.Next(x) == Some(queue0[head]) ==> x in inbasin
    ensures ClosedUpTo(g, queue, head + 1, inbasin)
  {
    forall i, x | 0 <= i < head + 1 && g.Inside(x) && g.Next(x) == Some(queue[i]) ensures x in inbasin {
      assert queue[i] == queue[..|queue0|][i] == queue0[i];
    }
  }

  /** The box bounds the first `head` queued cells and each side is touched by one of them. */
  predicate BoxUpTo(queue: seq<Cell>, head: nat, minR: int, maxR: int, minC: int, maxC: int)
    requires head <= |queue|
  {
    && (forall i :: 0 <= i < head ==> minR <= queue[i].0 <= maxR && minC <= queue[i].1 <= maxC)
    && (exists i :: 0 <= i < head && queue[i].0 == minR) && (exists i :: 0 <= i < head && queue[i].0 == maxR)
    && (exists i :: 0 <= i < head && queue[i].1 == minC) && (exists i :: 0 <= i < head && queue[i].1 == maxC)
  }

  /** Widening the box to the dequeued cell keeps it tight over one more cell. */
  lemma BoxStep(queue: seq<Cell>, head: nat, minR0: int, maxR0: int, minC0: int, maxC0: int,
                minR: int, maxR: int, minC: int, maxC: int)
    requires head < |queue|
    requires head == 0 ==> minR0 == maxR0 == queue[0].0 && minC0 == maxC0 == queue[0].1
    requires head > 0 ==> BoxUpTo(queue, head, minR0, maxR0, minC0, maxC0)
    requires minR == Min(minR0, queue[head].0) && maxR == Max(maxR0, queue[head].0)
    requires minC == Min(minC0, queue[head].1) && maxC == Max(maxC0, queue[head].1)
    ensures BoxUpTo(queue, head + 1, minR, maxR, minC, maxC)
  {
  }

  lemma BoxExtend(queue0: seq<Cell>, queue: seq<Cell>, head: nat, minR: int, maxR: int, minC: int, maxC: int)
    requires head <= |queue0| <= |queue| && queue[..|queue0|] == queue0
    requires BoxUpTo(queue0, head, minR, maxR, minC, maxC)
    ensures BoxUpTo(queue, head, minR, maxR, minC, maxC)
  {
    assert forall i :: 0 <= i < head ==> queue[i] == queue[..|queue0|][i];
  }

  lemma BoxIsTight(queue: seq<Cell>, inbasin: set<Cell>, minR: int, maxR: int, minC: int, maxC: int)
    requires 0 < |queue| && Queued(queue, inbasin) && BoxUpTo(queue, |queue|, minR, maxR, minC, maxC)
    ensures TightBox(Basin(inbasin, minR, maxR, minC, maxC))
  {
    forall p | p in inbasin ensures minR <= p.0 <= maxR && minC <= p.1 <= maxC {
      var i :| 0 <= i < |queue| && queue[i] == p;
    }
    var a :| 0 <= a < |queue| && queue[a].0 == minR;
    var b :| 0 <= b < |queue| && queue[b].0 == maxR;
    var c :| 0 <= c < |queue| && queue[c].1 == minC;
    var d :| 0 <= d < |queue| && queue[d].1 == maxC;
    assert queue[a] in inbasin && queue[b] in inbasin && queue[c] in inbasin && queue[d] in inbasin;
  }

  /**
   * One turn of the search: dequeue the cell at `head`, widen the box to it
   * and scan its neighbours. Either a new cell is visited or the queue
   * does not grow.
   */
  method SearchStep(g: FlowDir, seed: Cell, visited0: set<Cell>, inbasin0: set<Cell>, queue0: seq<Cell>, head: nat,
                    minR0: int, maxR0: int, minC0: int, maxC0: int, ghost steps0: map<Cell, nat>)
    returns (visited: set<Cell>, inbasin: set<Cell>, queue: seq<Cell>, minR: int, maxR: int, minC: int, maxC: int,
             ghost steps: map<Cell, nat>)
    requires g.Valid() && head < |queue0| && queue0[0] == seed
    requires Marks(g, seed, visited0, inbasin0, steps0) && Queued(queue0, inbasin0)
    requires ClosedUpTo(g, queue0, head, inbasin0)
    requires head == 0 ==> minR0 == maxR0 == seed.0 && minC0 == maxC0 == seed.1
    requires head > 0 ==> BoxUpTo(queue0, head, minR0, maxR0, minC0, maxC0)
    ensures head < |queue| && queue[0] == seed
    ensures Marks(g, seed, visited, inbasin, steps) && Queued(queue, inbasin)
    ensures ClosedUpTo(g, queue, head + 1, inbasin)
    ensures BoxUpTo(queue, head + 1, minR, maxR, minC, maxC)
    ensures |AllCells(g) - visited| < |AllCells(g) - visited0| || (visited == visited0 && |queue| == |queue0|)
  {
    var q := queue0[head];
    minR, maxR, minC, maxC := minR0, maxR0, minC0, maxC0;
    if q.0 < minR { minR := q.0; }
    if q.0 > maxR { maxR := q.0; }
    if q.1 < minC { minC := q.1; }
    if q.1 > maxC { maxC := q.1; }
    BoxStep(queue0, head, minR0, maxR0, minC0, maxC0, minR, maxR, minC, maxC);
    visited, inbasin, queue, steps := ScanNeighbors(g, seed, q, visited0, inbasin0, queue0, steps0);
    assert queue[0] == queue[..|queue0|][0];
    ClosedStep(g, queue0, queue, head, inbasin0, inbasin);
    BoxExtend(queue0, queue, head + 1, minR, maxR, minC, maxC);
    if visited != visited0 {
      FewerUnvisited(AllCells(g), visited0, visited);
    }
  }

  /**
   * `_delineate_basin_bfs_on_disk` with the visited rule it evidently
   * intends: a neighbour whose code is a D8 code pointing elsewhere is left
   * unvisited, so it can still join from the cell it does drain into. The
   * result is exactly the set of cells draining to the seed.
   */
  method DelineateBasin(g: FlowDir, seed: Cell) returns (r: Result<Basin>)
    requires g.Valid()
    ensures r.Err? <==> !g.Inside(seed)
    ensures r.Ok? ==> forall p :: p in r.value.cells <==> InBasinOf(g, p, seed)
    ensures r.Ok? ==> TightBox(r.value)
  {
    if !g.Inside(seed) {
      return Err("RuntimeError");
    }
    var visited: set<Cell> := {seed};
    var inbasin: set<Cell> := {seed};
    var queue: seq<Cell> := [seed];
    var head := 0;
    var minR, maxR, minC, maxC := seed.0, seed.0, seed.1, seed.1;
    ghost var steps: map<Cell, nat> := map[seed := 0];
    assert DrainsWithin(g, seed, seed, 0);
    while head < |queue|
      invariant 0 <= head <= |queue| && 0 < |queue| && queue[0] == seed
      invariant Marks(g, seed, visited, inbasin, steps) && Queued(queue, inbasin)
      invariant ClosedUpTo(g, queue, head, inbasin)
      invariant head == 0 ==> minR == maxR == seed.0 && minC == maxC == seed.1
      invariant head > 0 ==> BoxUpTo(queue, head, minR, maxR, minC, maxC)
      decreases |AllCells(g) - visited|, |queue| - head
    {
      visited, inbasin, queue, minR, maxR, minC, maxC, steps :=
        SearchStep(g, seed, visited, inbasin, queue, head, minR, maxR, minC, maxC, steps);
      head := head + 1;
    }
    forall q, x | q in inbasin && g.Inside(x) && g.Next(x) == Some(q) ensures x in inbasin {
      var i :| 0 <= i < |queue| && queue[i] == q;
    }
    ClosedHoldsBasin(g, seed, inbasin);
    BoxIsTight(queue, inbasin, minR, maxR, minC, maxC);
    r := Ok(Basin(inbasin, minR, maxR, minC, maxC));
  }

  // ---------------------------------------------------------------------
  // The search as written
  // ---------------------------------------------------------------------

  /** A neighbour of the seed whose D8 code drains somewhere other than the seed. */
  predicate RejectedBySeed(g: FlowDir, seed: Cell, k: nat)
    requires g.Valid() && k < 8
  {
    var p := NeighborAt(seed, k);
    g.Inside(p) && g.At(p) in ValidCodes && g.At(p) != UpstreamNeighbors[k].2
  }

  /** The entry of `UpstreamNeighbors` with a given offset. */
  function OffsetIndex(d: (int, int)): nat
  {
    if d == (-1, -1) then 0 else if d == (-1, 0) then 1 else if d == (-1, 1) then 2 else if d == (0, -1) then 3
    else if d == (0, 1) then 4 else if d == (1, -1) then 5 else if d == (1, 0) then 6 else 7
  }

  lemma OffsetIndexInverts(k: nat)
    requires k < 8
    ensures OffsetIndex((UpstreamNeighbors[k].0, UpstreamNeighbors[k].1)) == k
  {
    if k == 0 {} else if k == 1 {} else if k == 2 {} else if k == 3 {}
    else if k == 4 {} else if k == 5 {} else if k == 6 {} else {}
  }

  lemma NeighborsDistinct(q: Cell, j: nat, k: nat)
    requires j < 8 && k < 8 && j != k
    ensures NeighborAt(q, j) != NeighborAt(q, k) && NeighborAt(q, k) != q
  {
    NeedOffset(k);
    OffsetIndexInverts(j);
    OffsetIndexInverts(k);
  }

  lemma NeighborNotCentre(q: Cell, k: nat)
    requires k < 8
    ensures NeighborAt(q, k) != q
  {
    NeedOffset(k);
  }

  /**
   * The eight-neighbour pass as written: a neighbour with a D8 code that
   * drains elsewhere is marked visited too. Cells visited outside the basin
   * stay outside, and on the seed's own pass every such neighbour is
   * shut out.
   */
  method ScanNeighborsAsWritten(g: FlowDir, seed: Cell, q: Cell, visited0: set<Cell>, inbasin0: set<Cell>, queue0: seq<Cell>,
                                ghost steps0: map<Cell, nat>)
    returns (visited: set<Cell>, inbasin: set<Cell>, queue: seq<Cell>, ghost steps: map<Cell, nat>)
    requires g.Valid() && q in inbasin0
    requires SoundMarks(g, seed, visited0, inbasin0, steps0) && Queued(queue0, inbasin0)
    ensures SoundMarks(g, seed, visited, inbasin, steps) && Queued(queue, inbasin)
    ensures visited0 <= visited && inbasin0 <= inbasin && |queue0| <= |queue| && queue[..|queue0|] == queue0
    ensures |queue| > |queue0| ==> visited != visited0
    ensures forall p :: p in visited0 && p !in inbasin0 ==> p !in inbasin
    ensures q == seed && visited0 == {seed} ==>
      forall k :: 0 <= k < 8 && RejectedBySeed(g, seed, k) ==> NeighborAt(seed, k) in visited && NeighborAt(seed, k) !in inbasin
  {
    visited, inbasin, queue, steps := visited0, inbasin0, queue0, steps0;
    var first := q == seed && visited0 == {seed};
    var k := 0;
    while k < 8
      invariant 0 <= k <= 8
      invariant SoundMarks(g, seed, visited, inbasin, steps) && Queued(queue, inbasin)
      invariant visited0 <= visited && inbasin0 <= inbasin && |queue0| <= |queue| && queue[..|queue0|] == queue0
      invariant |queue| > |queue0| ==> visited != visited0
      invariant forall p :: p in visited0 && p !in inbasin0 ==> p !in inbasin
      invariant forall p :: p in inbasin && p !in inbasin0 ==> p in visited && p !in visited0
      invariant first ==> forall p :: p in visited ==> p == seed || exists j :: 0 <= j < k && p == NeighborAt(seed, j)
      invariant first ==> forall j :: 0 <= j < k && RejectedBySeed(g, seed, j) ==>
                  NeighborAt(seed, j) in visited && NeighborAt(seed, j) !in inbasin
    {
      ghost var qu, v, b := queue, visited, inbasin;
      visited, inbasin, queue, steps := VisitNeighborAsWritten(g, seed, q, k, visited, inbasin, queue, steps);
      if |queue| > |qu| {
        assert queue[..|queue0|] == qu[..|queue0|];
      }
      if first {
        SeedPassStep(g, seed, k, v, b, visited, inbasin);
      }
      k := k + 1;
    }
  }

  /** The seed's own pass, one neighbour further: a neighbour rejected so far stays rejected, and the new one is too if it drains elsewhere. */
  lemma SeedPassStep(g: FlowDir, seed: Cell, k: nat, visited0: set<Cell>, inbasin0: set<Cell>, visited: set<Cell>, inbasin: set<Cell>)
    requires g.Valid() && k < 8 && inbasin0 <= visited0
    requires forall p :: p in visited0 ==> p == seed || exists j :: 0 <= j < k && p == NeighborAt(seed, j)
    requires forall j :: 0 <= j < k && RejectedBySeed(g, seed, j) ==> NeighborAt(seed, j) in visited0 && NeighborAt(seed, j) !in inbasin0
    requires var p := NeighborAt(seed, k);
      if g.Inside(p) && p !in visited0 && g.At(p) == UpstreamNeighbors[k].2 then
        visited == visited0 + {p} && inbasin == inbasin0 + {p}
      else if g.Inside(p) && p !in visited0 then
        visited == visited0 + {p} && inbasin == inbasin0
      else
        visited == visited0 && inbasin == inbasin0
    ensures forall p :: p in visited ==> p == seed || exists j :: 0 <= j < k + 1 && p == NeighborAt(seed, j)
    ensures forall j :: 0 <= j < k + 1 && RejectedBySeed(g, seed, j) ==> NeighborAt(seed, j) in visited && NeighborAt(seed, j) !in inbasin
  {
    var p := NeighborAt(seed, k);
    NeighborNotCentre(seed, k);
    forall j | 0 <= j < k ensures NeighborAt(seed, j) != p {
      NeighborsDistinct(seed, j, k);
    }
    assert p !in visited0;
  }

  /**
   * One neighbour `k` of `q` on the pass as written: an unvisited inside
   * cell is always marked visited, and joins the basin and the queue only
   * when its code drains into `q`.
   */
  method VisitNeighborAsWritten(g: FlowDir, seed: Cell, q: Cell, k: nat, visited0: set<Cell>, inbasin0: set<Cell>,
                                queue0: seq<Cell>, ghost steps0: map<Cell, nat>)
    returns (visited: set<Cell>, inbasin: set<Cell>, queue: seq<Cell>, ghost steps: map<Cell, nat>)
    requires g.Valid() && q in inbasin0 && k < 8
    requires SoundMarks(g, seed, visited0, inbasin0, steps0) && Queued(queue0, inbasin0)
    ensures SoundMarks(g, seed, visited, inbasin, steps) && Queued(queue, inbasin)
    ensures var p := NeighborAt(q, k);
      if g.Inside(p) && p !in visited0 && g.At(p) == UpstreamNeighbors[k].2 then
        visited == visited0 + {p} && inbasin == inbasin0 + {p} && queue == queue0 + [p]
      else if g.Inside(p) && p !in visited0 then
        visited == visited0 + {p} && inbasin == inbasin0 && queue == queue0
      else
        visited == visited0 && inbasin == inbasin0 && queue == queue0
  {
    visited, inbasin, queue, steps := visited0, inbasin0, queue0, steps0;
    var (dr, dc, need) := UpstreamNeighbors[k];
    var p := (q.0 + dr, q.1 + dc);
    assert p == NeighborAt(q, k);
    if g.Inside(p) && p !in visited {
      var code := g.At(p);
      if code !in ValidCodes {
        visited := visited + {p};
      } else if code == need {
        NeedCodeMeansDrainsInto(g, q, k);
        DrainsLonger(g, p, seed, steps[q]);
        steps := steps[p := steps[q] + 1];
        inbasin := inbasin + {p};
        visited := visited + {p};
        queue := queue + [p];
      } else {
        visited := visited + {p};
      }
    }
  }

  /**
   * `_delineate_basin_bfs_on_disk` as written. Every cell it returns drains
   * to the seed, but a neighbour of the seed that drains into another basin
   * cell is marked visited on the seed's pass and never joins.
   */
  method DelineateBasinAsWritten(g: FlowDir, seed: Cell) returns (r: Result<Basin>)
    requires g.Valid()
    ensures r.Err? <==> !g.Inside(seed)
    ensures r.Ok? ==> forall p :: p in r.value.cells ==> InBasinOf(g, p, seed)
    ensures r.Ok? ==> forall k :: 0 <= k < 8 && RejectedBySeed(g, seed, k) ==> NeighborAt(seed, k) !in r.value.cells
  {
    if !g.Inside(seed) {
      return Err("RuntimeError");
    }
    var visited: set<Cell> := {seed};
    var inbasin: set<Cell> := {seed};
    var queue: seq<Cell> := [seed];
    var head := 0;
    var minR, maxR, minC, maxC := seed.0, seed.0, seed.1, seed.1;
    ghost var steps: map<Cell, nat> := map[seed := 0];
    assert DrainsWithin(g, seed, seed, 0);
    ghost var all := AllCells(g);
    while head < |queue|
      invariant 0 <= head <= |queue| && 0 < |queue| && queue[0] == seed
      invariant SoundMarks(g, seed, visited, inbasin, steps) && Queued(queue, inbasin)
      invariant head == 0 ==> visited == {seed}
      invariant head > 0 ==> forall k :: 0 <= k < 8 && RejectedBySeed(g, seed, k) ==>
                  NeighborAt(seed, k) in visited && NeighborAt(seed, k) !in inbasin
      decreases |all - visited|, |queue| - head
    {
      var q := queue[head];
      if q.0 < minR { minR := q.0; }
      if q.0 > maxR { maxR := q.0; }
      if q.1 < minC { minC := q.1; }
      if q.1 > maxC { maxC := q.1; }
      ghost var visited0, queue0 := visited, queue;
      visited, inbasin, queue, steps := ScanNeighborsAsWritten(g, seed, q, visited, inbasin, queue, steps);
      assert queue[0] == queue[..|queue0|][0];
      if visited != visited0 {
        FewerUnvisited(all, visited0, visited);
      }
      head := head + 1;
    }
    r := Ok(Basin(inbasin, minR, maxR, minC, maxC));
  }

  /** A 2 × 2 raster: the seed (0, 0) is an outlet, (0, 1) and (1, 0) drain into it, and (1, 1) drains west into (1, 0). */
  const LossGrid := FlowDir(2, 2, [[0, 16], [64, 16]])

  /** On that raster the search as written leaves out (1, 1), which drains to the seed in two steps. */
  method AsWrittenBasinMissesCell() returns (r: Result<Basin>)
    ensures r.Ok? && (1, 1) !in r.value.cells && InBasinOf(LossGrid, (1, 1), (0, 0))
  {
    var g := LossGrid;
    assert g.Valid();
    r := DelineateBasinAsWritten(g, (0, 0));
    assert NeighborAt((0, 0), 7) == (1, 1);
    assert RejectedBySeed(g, (0, 0), 7);
    LossGridDrains();
  }

  /** With the intended visited rule the same raster's basin is all four cells. */
  method CorrectedBasinHoldsCell() returns (r: Result<Basin>)
    ensures r.Ok? && (1, 1) in r.value.cells
  {
    var g := LossGrid;
    assert g.Valid();
    r := DelineateBasin(g, (0, 0));
    LossGridDrains();
  }

  /** On `LossGrid`, (1, 1) drains west to (1, 0), which drains north to the seed (0, 0). */
  lemma LossGridDrains()
    ensures LossGrid.Valid() && InBasinOf(LossGrid, (1, 1), (0, 0))
  {
    var g := LossGrid;
    assert g.Valid();
    assert g.At((1, 0)) == 64 && g.At((1, 1)) == 16;
    assert g.Next((1, 0)) == Some((0, 0));
    assert g.Next((1, 1)) == Some((1, 0));
    assert DrainsWithin(g, (0, 0), (0, 0), 0);
    assert DrainsWithin(g, (1, 0), (0, 0), 1);
    assert DrainsWithin(g, (1, 1), (0, 0), 2);
  }

  // ---------------------------------------------------------------------
  // Output mask and clip window
  // ---------------------------------------------------------------------

  /** The basin mask over its bounding box: 1 exactly at basin cells (`out_mask` after pasting every tile mask). */
  function BasinMask(b: Basin): (m: seq<seq<int>>)
    requires b.minR <= b.maxR && b.minC <= b.maxC
    ensures |m| == b.maxR - b.minR + 1
    ensures forall i :: 0 <= i < |m| ==> |m[i]| == b.maxC - b.minC + 1
    ensures forall i, j :: 0 <= i < |m| && 0 <= j < |m[i]| ==>
      (m[i][j] == 0 || m[i][j] == 1) && (m[i][j] == 1 <==> (b.minR + i, b.minC + j) in b.cells)
  {
    seq(b.maxR - b.minR + 1, i =>
      seq(b.maxC - b.minC + 1, j => if (b.minR + i, b.minC + j) in b.cells then 1 else 0))
  }

  /** A half-open raster window `[rowMin, rowMax) × [colMin, colMax)`. */
  datatype Window = Window(rowMin: int, rowMax: int, colMin: int, colMax: int)

  predicate InWindow(w: Window, p: Cell)
  {
    w.rowMin <= p.0 < w.rowMax && w.colMin <= p.1 < w.colMax
  }

  const BufferCells := 5

  /**
   * The clip window of step 6: the basin box grown by five cells on every
   * side, cut at the raster edge.
   */
  function ClipWindow(b: Basin, height: nat, width: nat): (w: Window)
    requires 0 <= b.minR <= b.maxR < height && 0 <= b.minC <= b.maxC < width
    ensures 0 <= w.rowMin <= b.minR && b.maxR < w.rowMax <= height
    ensures 0 <= w.colMin <= b.minC && b.maxC < w.colMax <= width
    ensures w.rowMin == 0 || b.minR - w.rowMin == BufferCells
    ensures w.colMin == 0 || b.minC - w.colMin == BufferCells
    ensures w.rowMax == height || w.rowMax - b.maxR == BufferCells + 1
    ensures w.colMax == width || w.colMax - b.maxC == BufferCells + 1
    ensures b.minR - w.rowMin <= BufferCells && w.rowMax - b.maxR <= BufferCells + 1
    ensures b.minC - w.colMin <= BufferCells && w.colMax - b.maxC <= BufferCells + 1
  {
    Window(Max(0, b.minR - BufferCells), Min(height, b.maxR + BufferCells + 1),
           Max(0, b.minC - BufferCells), Min(width, b.maxC + BufferCells + 1))
  }

  /**
   * `basin_mask_buffer`: the clip window's mask, the basin mask pasted at
   * offset `(rmin - rmin_b, cmin - cmin_b)` and 0 around it.
   */
  function BufferedMask(b: Basin, w: Window): (out: seq<seq<int>>)
    requires b.minR <= b.maxR && b.minC <= b.maxC
    requires w.rowMin <= b.minR && b.maxR < w.rowMax && w.colMin <= b.minC && b.maxC < w.colMax
    ensures |out| == w.rowMax - w.rowMin
    ensures forall i :: 0 <= i < |out| ==> |out[i]| == w.colMax - w.colMin
  {
    var mask := BasinMask(b);
    var r0, c0 := b.minR - w.rowMin, b.minC - w.colMin;
    var rb, cb := r0 + (b.maxR - b.minR + 1), c0 + (b.maxC - b.minC + 1);
    seq(w.rowMax - w.rowMin, i =>
      seq(w.colMax - w.colMin, j => if r0 <= i < rb && c0 <= j < cb then mask[i - r0][j - c0] else 0))
  }

  /** The buffered mask is 1 exactly at the basin cells of the window, whatever lies outside the box. */
  lemma BufferedMaskMarksBasin(b: Basin, w: Window)
    requires b.minR <= b.maxR && b.minC <= b.maxC && TightBox(b)
    requires w.rowMin <= b.minR && b.maxR < w.rowMax && w.colMin <= b.minC && b.maxC < w.colMax
    ensures var out := BufferedMask(b, w);
      forall i, j :: 0 <= i < |out| && 0 <= j < |out[i]| ==>
        (out[i][j] == 1 <==> (w.rowMin + i, w.colMin + j) in b.cells)
  {
    var out := BufferedMask(b, w);
    var mask := BasinMask(b);
    var r0, c0 := b.minR - w.rowMin, b.minC - w.colMin;
    forall i, j | 0 <= i < |out| && 0 <= j < |out[i]|
      ensures out[i][j] == 1 <==> (w.rowMin + i, w.colMin + j) in b.cells
    {
      var p := (w.rowMin + i, w.colMin + j);
      if r0 <= i < r0 + |mask| && c0 <= j < c0 + (b.maxC - b.minC + 1) {
        assert out[i][j] == mask[i - r0][j - c0];
        assert (b.minR + (i - r0), b.minC + (j - c0)) == p;
      } else {
        assert out[i][j] == 0;
        assert !(b.minR <= p.0 <= b.maxR && b.minC <= p.1 <= b.maxC);
      }
    }
  }

  // ---------------------------------------------------------------------
  // Snapping the outlet to the drainage network
  // ---------------------------------------------------------------------

  /** A flow-accumulation raster: upstream cell counts, read as float64. */
  datatype AccGrid = AccGrid(height: nat, width: nat, counts: seq<seq<real>>)
  {
    predicate Valid()
    {
      |counts| == height && forall r :: 0 <= r < height ==> |counts[r]| == width
    }

    predicate Inside(p: Cell)
    {
      0 <= p.0 < height && 0 <= p.1 < width
    }

    /** The accumulated area of a cell in km². */
    function AreaAt(p: Cell, pixelArea: real): real
      requires Valid() && Inside(p)
    {
      counts[p.0][p.1] * pixelArea
    }
  }

  /** A cell on the drainage network: its accumulated area reaches the threshold. */
  predicate OnNetwork(a: AccGrid, p: Cell, threshold: real, pixelArea: real)
    requires a.Valid()
  {
    a.Inside(p) && a.AreaAt(p, pixelArea) >= threshold
  }

  function SqDist(p: Cell, o: Cell): int
  {
    (p.0 - o.0) * (p.0 - o.0) + (p.1 - o.1) * (p.1 - o.1)
  }

  /** Row-major order, the order in which `np.where` lists the cells of a block. */
  predicate RowMajorLe(p: Cell, q: Cell)
  {
    p.0 < q.0 || (p.0 == q.0 && p.1 <= q.1)
  }

  ghost predicate NoneOnNetwork(a: AccGrid, w: Window, threshold: real, pixelArea: real)
    requires a.Valid()
  {
    forall p :: InWindow(w, p) ==> !OnNetwork(a, p, threshold, pixelArea)
  }

  /**
   * `p` is what `argmin` of the squared distance picks among the network
   * cells of the window: a closest one, and the first in row-major order
   * among the closest.
   */
  ghost predicate Nearest(a: AccGrid, o: Cell, w: Window, p: Cell, threshold: real, pixelArea: real)
    requires a.Valid()
  {
    InWindow(w, p) && OnNetwork(a, p, threshold, pixelArea) &&
    forall q :: InWindow(w, q) && OnNetwork(a, q, threshold, pixelArea) ==>
      SqDist(p, o) <= SqDist(q, o) && (SqDist(q, o) == SqDist(p, o) ==> RowMajorLe(p, q))
  }

  /** Window cells scanned before position `(i, j)` in row-major order. */
  predicate Scanned(w: Window, q: Cell, i: int, j: int)
  {
    InWindow(w, q) && (q.0 < i || (q.0 == i && q.1 < j))
  }

  ghost predicate BestSoFar(a: AccGrid, o: Cell, w: Window, threshold: real, pixelArea: real,
                            best: Option<Cell>, i: int, j: int)
    requires a.Valid()
  {
    (best.None? ==> forall q :: Scanned(w, q, i, j) ==> !OnNetwork(a, q, threshold, pixelArea)) &&
    (best.Some? ==>
      Scanned(w, best.value, i, j) && OnNetwork(a, best.value, threshold, pixelArea) &&
      forall q :: Scanned(w, q, i, j) && OnNetwork(a, q, threshold, pixelArea) ==>
        SqDist(best.value, o) <= SqDist(q, o) &&
        (SqDist(q, o) == SqDist(best.value, o) ==> RowMajorLe(best.value, q)))
  }

  /** One row of the window scan: keep the first strictly closer network cell. */
  method ScanRow(a: AccGrid, o: Cell, w: Window, threshold: real, pixelArea: real,
                 best0: Option<Cell>, i: int) returns (best: Option<Cell>)
    requires a.Valid() && 0 <= w.rowMin && w.rowMax <= a.height && 0 <= w.colMin && w.colMax <= a.width
    requires w.rowMin <= i < w.rowMax
    requires BestSoFar(a, o, w, threshold, pixelArea, best0, i, w.colMin)
    ensures BestSoFar(a, o, w, threshold, pixelArea, best, i + 1, w.colMin)
  {
    best := best0;
    var j := w.colMin;
    while j < w.colMax
      invariant w.colMin <= j && (j <= w.colMax || j == w.colMin)
      invariant BestSoFar(a, o, w, threshold, pixelArea, best, i, j)
    {
      if a.AreaAt((i, j), pixelArea) >= threshold &&
         (best.None? || SqDist((i, j), o) < SqDist(best.value, o)) {
        best := Some((i, j));
      }
      j := j + 1;
    }
    assert forall q :: Scanned(w, q, i + 1, w.colMin) == Scanned(w, q, i, j);
  }

  /** The network cell of a window nearest `o`, or None when the window holds none. */
  method NearestInWindow(a: AccGrid, o: Cell, w: Window, threshold: real, pixelArea: real)
    returns (best: Option<Cell>)
    requires a.Valid() && 0 <= w.rowMin && w.rowMax <= a.height && 0 <= w.colMin && w.colMax <= a.width
    ensures best.None? <==> NoneOnNetwork(a, w, threshold, pixelArea)
    ensures best.Some? ==> Nearest(a, o, w, best.value, threshold, pixelArea)
  {
    best := None;
    if w.rowMax <= w.rowMin {
      return;
    }
    var i := w.rowMin;
    while i < w.rowMax
      invariant w.rowMin <= i <= w.rowMax
      invariant BestSoFar(a, o, w, threshold, pixelArea, best, i, w.colMin)
    {
      best := ScanRow(a, o, w, threshold, pixelArea, best, i);
      i := i + 1;
    }
    assert forall q :: Scanned(w, q, w.rowMax, w.colMin) == InWindow(w, q);
  }

  /** The search window of a radius around `o`, cut at the raster edge. */
  function SearchWindow(a: AccGrid, o: Cell, radius: nat): (w: Window)
    ensures 0 <= w.rowMin && w.rowMax <= a.height && 0 <= w.colMin && w.colMax <= a.width
    ensures forall p ::
      a.Inside(p) && o.0 - radius <= p.0 <= o.0 + radius && o.1 - radius <= p.1 <= o.1 + radius ==> InWindow(w, p)
  {
    Window(Max(0, o.0 - radius), Min(a.height, o.0 + radius + 1),
           Max(0, o.1 - radius), Min(a.width, o.1 + radius + 1))
  }

  const FirstRadius: nat := 256
  const DefaultMaxExpand: nat := 16384

  /** The radii the search tries as written: 256, 512, … while not above `max(H, W)` nor `max_expand`. */
  function RadiiAsWritten(h: nat, w: nat, maxExpand: nat, r: nat): (radii: seq<nat>)
    requires r > 0
    ensures forall k :: 0 <= k < |radii| ==> r <= radii[k] <= Max(h, w) && radii[k] <= maxExpand
    decreases Max(h, w) - r + 1
  {
    if r <= Max(h, w) && r <= maxExpand then [r] + RadiiAsWritten(h, w, maxExpand, 2 * r) else []
  }

  /**
   * The radii of the corrected search: 256, 512, … while not above
   * `max_expand`, stopping after the first window whose radius reaches
   * `max(H, W)`, which covers the whole raster.
   */
  function RadiiCorrected(h: nat, w: nat, maxExpand: nat, r: nat): (radii: seq<nat>)
    requires r > 0
    ensures forall k :: 0 <= k < |radii| ==> r <= radii[k] <= maxExpand
    ensures forall k :: 0 <= k < |radii| - 1 ==> radii[k] < Max(h, w)
    decreases Max(h, w) - r + 1
  {
    if r > maxExpand then []
    else if r >= Max(h, w) then [r]
    else [r] + RadiiCorrected(h, w, maxExpand, 2 * r)
  }

  /**
   * The outcome of a search over `radii`: the nearest network cell of the
   * first window that holds one, or `o` itself when none does.
   */
  ghost predicate SnapResult(a: AccGrid, o: Cell, threshold: real, pixelArea: real, radii: seq<nat>, s: Cell)
    requires a.Valid()
  {
    (exists k :: 0 <= k < |radii| &&
       (forall m :: 0 <= m < k ==> NoneOnNetwork(a, SearchWindow(a, o, radii[m]), threshold, pixelArea)) &&
       Nearest(a, o, SearchWindow(a, o, radii[k]), s, threshold, pixelArea)) ||
    ((forall m :: 0 <= m < |radii| ==> NoneOnNetwork(a, SearchWindow(a, o, radii[m]), threshold, pixelArea)) &&
     s == o)
  }

  /** Searches the windows of `radii` in turn; shared by the as-written and the corrected search. */
  method SearchRadii(a: AccGrid, o: Cell, threshold: real, pixelArea: real, radii: seq<nat>)
    returns (s: Cell, v: real)
    requires a.Valid() && a.Inside(o)
    ensures a.Inside(s) && v == a.AreaAt(s, pixelArea)
    ensures SnapResult(a, o, threshold, pixelArea, radii, s)
  {
    var k := 0;
    while k < |radii|
      invariant 0 <= k <= |radii|
      invariant forall m :: 0 <= m < k ==> NoneOnNetwork(a, SearchWindow(a, o, radii[m]), threshold, pixelArea)
    {
      var best := NearestInWindow(a, o, SearchWindow(a, o, radii[k]), threshold, pixelArea);
      if best.Some? {
        s := best.value;
        v := a.AreaAt(s, pixelArea);
        return;
      }
      k := k + 1;
    }
    s := o;
    v := a.AreaAt(o, pixelArea);
  }

  /**
   * `_snap_to_network_on_disk` as written: the cell and the accumulated
   * area the outlet snaps to (the map coordinates of the cell centre are
   * left out).
   */
  method SnapToNetworkAsWritten(a: AccGrid, o: Cell, threshold: real, pixelArea: real, maxExpand: nat)
    returns (s: Cell, v: real)
    requires a.Valid() && a.Inside(o)
    ensures a.Inside(s) && v == a.AreaAt(s, pixelArea)
    ensures SnapResult(a, o, threshold, pixelArea, RadiiAsWritten(a.height, a.width, maxExpand, FirstRadius), s)
  {
    s, v := SearchRadii(a, o, threshold, pixelArea, RadiiAsWritten(a.height, a.width, maxExpand, FirstRadius));
  }

  /** The corrected search, which reaches a window covering the raster unless `max_expand` stops it first. */
  method SnapToNetwork(a: AccGrid, o: Cell, threshold: real, pixelArea: real, maxExpand: nat)
    returns (s: Cell, v: real)
    requires a.Valid() && a.Inside(o)
    ensures a.Inside(s) && v == a.AreaAt(s, pixelArea)
    ensures SnapResult(a, o, threshold, pixelArea, RadiiCorrected(a.height, a.width, maxExpand, FirstRadius), s)
  {
    s, v := SearchRadii(a, o, threshold, pixelArea, RadiiCorrected(a.height, a.width, maxExpand, FirstRadius));
  }

  /** As written, a raster smaller than 256 cells on both sides is never searched. */
  lemma SmallRasterNeverSearched(h: nat, w: nat, maxExpand: nat)
    requires Max(h, w) < FirstRadius
    ensures RadiiAsWritten(h, w, maxExpand, FirstRadius) == []
  {
  }

  /** A window whose radius reaches `max(H, W)` covers every cell of the raster. */
  lemma WideWindowCovers(a: AccGrid, o: Cell, radius: nat, p: Cell)
    requires a.Inside(o) && a.Inside(p) && radius >= Max(a.height, a.width)
    ensures InWindow(SearchWindow(a, o, radius), p)
  {
  }

  function Pow2(n: nat): nat
  {
    if n == 0 then 1 else 2 * Pow2(n - 1)
  }

  lemma {:induction false} Pow2Scales(r: nat, n: nat)
    ensures r <= r * Pow2(n)
    decreases n
  {
    if n > 0 {
      Pow2Scales(r, n - 1);
      assert r * Pow2(n) == 2 * (r * Pow2(n - 1));
    }
  }

  /** When `max_expand` is the first radius times a power of two, at least `max(H, W)`, the corrected search ends on a covering window. */
  lemma {:induction false} CorrectedReachesCover(h: nat, w: nat, maxExpand: nat, r: nat, n: nat)
    requires r > 0 && maxExpand == r * Pow2(n) && Max(h, w) <= maxExpand
    ensures var radii := RadiiCorrected(h, w, maxExpand, r);
      |radii| > 0 && radii[|radii| - 1] >= Max(h, w)
    decreases n
  {
    Pow2Scales(r, n);
    if r < Max(h, w) {
      assert n > 0;
      assert maxExpand == (2 * r) * Pow2(n - 1);
      CorrectedReachesCover(h, w, maxExpand, 2 * r, n - 1);
    }
  }

  /**
   * The corrected search with the default `max_expand` on a raster of at
   * most 16384 cells a side: it keeps the outlet only when no cell of the
   * raster is on the network.
   */
  lemma CorrectedSnapFindsNetwork(a: AccGrid, o: Cell, threshold: real, pixelArea: real, s: Cell, p: Cell)
    requires a.Valid() && a.Inside(o) && Max(a.height, a.width) <= DefaultMaxExpand
    requires SnapResult(a, o, threshold, pixelArea, RadiiCorrected(a.height, a.width, DefaultMaxExpand, FirstRadius), s)
    requires OnNetwork(a, p, threshold, pixelArea)
    ensures OnNetwork(a, s, threshold, pixelArea)
  {
    var radii := RadiiCorrected(a.height, a.width, DefaultMaxExpand, FirstRadius);
    assert DefaultMaxExpand == FirstRadius * Pow2(6);
    CorrectedReachesCover(a.height, a.width, DefaultMaxExpand, FirstRadius, 6);
    WideWindowCovers(a, o, radii[|radii| - 1], p);
  }

  /** A 1 × 2 accumulation raster whose second cell is on the network. */
  const SmallAcc := AccGrid(1, 2, [[0.0, 5.0]])

  /** The as-written search leaves the outlet on a cell off the network, though its neighbour is on it. */
  method AsWrittenSnapStaysPut() returns (s: Cell, v: real)
    ensures s == (0, 0) && v == 0.0
    ensures !OnNetwork(SmallAcc, s, 1.0, 1.0) && OnNetwork(SmallAcc, (0, 1), 1.0, 1.0)
  {
    SmallRasterNeverSearched(1, 2, DefaultMaxExpand);
    s, v := SnapToNetworkAsWritten(SmallAcc, (0, 0), 1.0, 1.0, DefaultMaxExpand);
  }

  /** The corrected search moves the outlet onto the network. */
  method CorrectedSnapMoves() returns (s: Cell, v: real)
    ensures s == (0, 1) && v == 5.0
  {
    s, v := SnapToNetwork(SmallAcc, (0, 0), 1.0, 1.0, DefaultMaxExpand);
    CorrectedSnapFindsNetwork(SmallAcc, (0, 0), 1.0, 1.0, s, (0, 1));
    assert SmallAcc.Inside(s);
    assert s == (0, 0) || s == (0, 1);
  }
}
