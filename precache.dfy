/**
 * Tile-cache warm-up: the bounding box is cut into a grid of cells and, for
 * every zoom level, each cell's tiles are requested once. The download is
 * outside the model: which requests fail is a parameter.
 */
module Precache {
  import opened Wrappers

  const ZeroDivision := "ZeroDivisionError"

  /**
   * The nested `linspace`: n equal steps from a, with b itself appended as
   * the last point. n = 0 divides by zero; a negative n gives just [b].
   */
  function Linspace(a: real, b: real, n: int): (r: Result<seq<real>>)
    ensures n == 0 <==> r == Err(ZeroDivision)
    ensures n < 0 ==> r == Ok([b])
    ensures n > 0 ==> r.Ok? && |r.value| == n + 1 && r.value[0] == a && r.value[n] == b
    ensures n > 0 ==> forall i :: 0 <= i < n ==> r.value[i] == a + i as real * ((b - a) / n as real)
  {
    if n == 0 then Err(ZeroDivision)
    else
      var step := (b - a) / n as real;
      var points := seq(if n < 0 then 0 else n, i => a + i as real * step);
      assert n < 0 ==> points + [b] == [b];
      Ok(points + [b])
  }

  /** Consecutive points are one step apart, the last step included. */
  lemma LinspaceSteps(a: real, b: real, n: int, i: nat)
    requires n > 0 && i < n
    ensures Linspace(a, b, n).value[i + 1] - Linspace(a, b, n).value[i] == (b - a) / n as real
  {
    var step := (b - a) / n as real;
    assert step * n as real == b - a;
    if i + 1 == n {
      assert Linspace(a, b, n).value[i] == a + (n - 1) as real * step;
    }
  }

  /** With a <= b the points never decrease. */
  lemma LinspaceSorted(a: real, b: real, n: int, i: nat, k: nat)
    requires n > 0 && a <= b && i <= k <= n
    ensures Linspace(a, b, n).value[i] <= Linspace(a, b, n).value[k]
    decreases k - i
  {
    if i < k {
      LinspaceSteps(a, b, n, k - 1);
      assert (b - a) / n as real >= 0.0;
      LinspaceSorted(a, b, n, i, k - 1);
    }
  }

  /** Every point of [a, b] lies in some cell [p[i], p[i+1]]: the cells cover the side. */
  lemma {:induction false} LinspaceCovers(a: real, b: real, n: int, x: real, k: nat)
    requires n > 0 && a <= x <= b && k < n
    requires Linspace(a, b, n).value[k] <= x
    ensures exists i :: k <= i < n && Linspace(a, b, n).value[i] <= x <= Linspace(a, b, n).value[i + 1]
    decreases n - k
  {
    var p := Linspace(a, b, n).value;
    if x > p[k + 1] {
      LinspaceCovers(a, b, n, x, k + 1);
    }
  }

  /** One tile request: a zoom level and the bounds of cell (i, j). */
  datatype Request = Request(z: int, i: int, j: int, lonMin: real, latMin: real, lonMax: real, latMax: real)

  /** Cell (i, j) at zoom z: the i-th longitude band and the j-th latitude band. */
  function Cell(lons: seq<real>, lats: seq<real>, z: int, i: nat, j: nat): Request
    requires i + 1 < |lons| && j + 1 < |lats|
  {
    Request(z, i, j, lons[i], lats[j], lons[i + 1], lats[j + 1])
  }

  /** The first `count` cells of column i, in order. */
  function RowJobs(lons: seq<real>, lats: seq<real>, z: int, i: nat, count: nat): (r: seq<Request>)
    requires i + 1 < |lons| && count < |lats|
    ensures |r| == count
    ensures forall j :: 0 <= j < count ==> r[j] == Cell(lons, lats, z, i, j)
  {
    seq(count, j requires 0 <= j < count => Cell(lons, lats, z, i, j))
  }

  /** The cells of the first `rows` columns at zoom z. */
  function ZoomJobs(lons: seq<real>, lats: seq<real>, z: int, rows: nat, g: nat): (r: seq<Request>)
    requires rows < |lons| && g < |lats|
    ensures |r| == rows * g
  {
    if rows == 0 then [] else ZoomJobs(lons, lats, z, rows - 1, g) + RowJobs(lons, lats, z, rows - 1, g)
  }

  /** Every cell of the zoom levels zmin .. zEnd - 1, zoom by zoom. */
  function Jobs(lons: seq<real>, lats: seq<real>, zmin: int, zEnd: int, g: nat): (r: seq<Request>)
    requires g < |lons| && g < |lats|
    ensures |r| == if zEnd <= zmin then 0 else (zEnd - zmin) * (g * g)
    decreases zEnd - zmin
  {
    if zEnd <= zmin then []
    else Jobs(lons, lats, zmin, zEnd - 1, g) + ZoomJobs(lons, lats, zEnd - 1, g, g)
  }

  /** Every cell (i, j) of every zoom level in range is requested. */
  lemma {:induction false} JobsContain(lons: seq<real>, lats: seq<real>, zmin: int, zEnd: int, g: nat, z: int, i: nat, j: nat)
    requires g < |lons| && g < |lats| && zmin <= z < zEnd && i < g && j < g
    ensures Cell(lons, lats, z, i, j) in Jobs(lons, lats, zmin, zEnd, g)
    decreases zEnd - zmin
  {
    var front := Jobs(lons, lats, zmin, zEnd - 1, g);
    var last := ZoomJobs(lons, lats, zEnd - 1, g, g);
    assert Jobs(lons, lats, zmin, zEnd, g) == front + last;
    if z < zEnd - 1 {
      JobsContain(lons, lats, zmin, zEnd - 1, g, z, i, j);
    } else {
      ZoomJobsContain(lons, lats, z, g, g, i, j);
    }
  }

  lemma {:induction false} ZoomJobsContain(lons: seq<real>, lats: seq<real>, z: int, rows: nat, g: nat, i: nat, j: nat)
    requires rows < |lons| && g < |lats| && i < rows && j < g
    ensures Cell(lons, lats, z, i, j) in ZoomJobs(lons, lats, z, rows, g)
  {
    var front := ZoomJobs(lons, lats, z, rows - 1, g);
    var last := RowJobs(lons, lats, z, rows - 1, g);
    assert ZoomJobs(lons, lats, z, rows, g) == front + last;
    if i < rows - 1 {
      ZoomJobsContain(lons, lats, z, rows - 1, g, i, j);
    } else {
      assert last[j] == Cell(lons, lats, z, i, j);
    }
  }

  /** Every request is a cell of the grid at a zoom level in range. */
  lemma {:induction false} JobsOnlyCells(lons: seq<real>, lats: seq<real>, zmin: int, zEnd: int, g: nat, q: Request)
    requires g < |lons| && g < |lats| && q in Jobs(lons, lats, zmin, zEnd, g)
    ensures zmin <= q.z < zEnd && 0 <= q.i < g && 0 <= q.j < g
    ensures q == Cell(lons, lats, q.z, q.i, q.j)
    decreases zEnd - zmin
  {
    var front := Jobs(lons, lats, zmin, zEnd - 1, g);
    if q in front {
      JobsOnlyCells(lons, lats, zmin, zEnd - 1, g, q);
    } else {
      ZoomJobsOnlyCells(lons, lats, zEnd - 1, g, g, q);
    }
  }

  lemma {:induction false} ZoomJobsOnlyCells(lons: seq<real>, lats: seq<real>, z: int, rows: nat, g: nat, q: Request)
    requires rows < |lons| && g < |lats| && q in ZoomJobs(lons, lats, z, rows, g)
    ensures q.z == z && 0 <= q.i < rows && 0 <= q.j < g
    ensures q == Cell(lons, lats, q.z, q.i, q.j)
  {
    var front := ZoomJobs(lons, lats, z, rows - 1, g);
    if q in front {
      ZoomJobsOnlyCells(lons, lats, z, rows - 1, g, q);
    } else {
      var last := RowJobs(lons, lats, z, rows - 1, g);
      var j :| 0 <= j < g && last[j] == q;
    }
  }

  /** At every zoom level in range, each point of the bounding box lies in a requested cell. */
  lemma CellsCoverBox(lonMin: real, latMin: real, lonMax: real, latMax: real, zmin: int, zEnd: int, g: nat,
                      z: int, x: real, y: real)
    requires g > 0 && lonMin <= x <= lonMax && latMin <= y <= latMax && zmin <= z < zEnd
    ensures var lons := Linspace(lonMin, lonMax, g).value;
      var lats := Linspace(latMin, latMax, g).value;
      exists q :: q in Jobs(lons, lats, zmin, zEnd, g) && q.z == z
        && q.lonMin <= x <= q.lonMax && q.latMin <= y <= q.latMax
  {
    var i := LinspaceCell(lonMin, lonMax, g, x);
    var j := LinspaceCell(latMin, latMax, g, y);
    CellCovers(Linspace(lonMin, lonMax, g).value, Linspace(latMin, latMax, g).value, zmin, zEnd, g, z, i, j, x, y);
  }

  /** The cell of one side that holds `x`. */
  lemma LinspaceCell(a: real, b: real, n: int, x: real) returns (i: nat)
    requires n > 0 && a <= x <= b
    ensures i < n && Linspace(a, b, n).value[i] <= x <= Linspace(a, b, n).value[i + 1]
  {
    LinspaceCovers(a, b, n, x, 0);
    i :| 0 <= i < n && Linspace(a, b, n).value[i] <= x <= Linspace(a, b, n).value[i + 1];
  }

  /** The request for cell (i, j) at zoom z holds any point inside that cell. */
  lemma CellCovers(lons: seq<real>, lats: seq<real>, zmin: int, zEnd: int, g: nat, z: int, i: nat, j: nat, x: real, y: real)
    requires g < |lons| && g < |lats| && zmin <= z < zEnd && i < g && j < g
    requires lons[i] <= x <= lons[i + 1] && lats[j] <= y <= lats[j + 1]
    ensures exists q ::
      q in Jobs(lons, lats, zmin, zEnd, g) && q.z == z && q.lonMin <= x <= q.lonMax && q.latMin <= y <= q.latMax
  {
    JobsContain(lons, lats, zmin, zEnd, g, z, i, j);
    var q := Cell(lons, lats, z, i, j);
    assert q in Jobs(lons, lats, zmin, zEnd, g);
  }

  /** The requests among `jobs` whose download raised, in order. */
  function Failed(jobs: seq<Request>, fails: set<(int, int, int)>): (r: seq<Request>)
    ensures |r| <= |jobs|
    ensures forall k :: 0 <= k < |r| ==> r[k] in jobs && (r[k].z, r[k].i, r[k].j) in fails
  {
    if jobs == [] then []
    else
      var init := Failed(jobs[..|jobs| - 1], fails);
      var last := jobs[|jobs| - 1];
      if (last.z, last.i, last.j) in fails then init + [last] else init
  }

  /** A failure is only logged: the request list is the same whatever fails. */
  lemma {:induction false} FailedComplete(jobs: seq<Request>, fails: set<(int, int, int)>, k: nat)
    requires k < |jobs| && (jobs[k].z, jobs[k].i, jobs[k].j) in fails
    ensures jobs[k] in Failed(jobs, fails)
  {
    if k < |jobs| - 1 {
      FailedComplete(jobs[..|jobs| - 1], fails, k);
    }
  }

  lemma FailedAppend(jobs: seq<Request>, t: Request, fails: set<(int, int, int)>)
    ensures Failed(jobs + [t], fails) == if (t.z, t.i, t.j) in fails then Failed(jobs, fails) + [t] else Failed(jobs, fails)
  {
    assert (jobs + [t])[..|jobs|] == jobs;
  }

  lemma RowJobsSnoc(lons: seq<real>, lats: seq<real>, z: int, i: nat, j: nat)
    requires i + 1 < |lons| && j + 1 < |lats|
    ensures RowJobs(lons, lats, z, i, j + 1) == RowJobs(lons, lats, z, i, j) + [Cell(lons, lats, z, i, j)]
  {
  }

  lemma SnocAssoc<T>(xs: seq<T>, ys: seq<T>, y: T)
    ensures xs + (ys + [y]) == (xs + ys) + [y]
  {
  }

  /** What a run did: the announced total, the final counter, the requests made and those that failed. */
  datatype Run = Run(totalJobs: int, job: nat, requests: seq<Request>, errors: seq<Request>)

  /** The innermost loop: the cells of column i at zoom z, appended to what the run has done. */
  method RequestColumn(lons: seq<real>, lats: seq<real>, z: int, i: nat, g: nat, fails: set<(int, int, int)>,
                       requests0: seq<Request>, errors0: seq<Request>)
    returns (requests: seq<Request>, errors: seq<Request>)
    requires i + 1 < |lons| && g < |lats| && errors0 == Failed(requests0, fails)
    ensures requests == requests0 + RowJobs(lons, lats, z, i, g)
    ensures errors == Failed(requests, fails)
  {
    requests, errors := requests0, errors0;
    for j := 0 to g
      invariant requests == requests0 + RowJobs(lons, lats, z, i, j)
      invariant errors == Failed(requests, fails)
    {
      var request := Request(z, i, j, lons[i], lats[j], lons[i + 1], lats[j + 1]);
      RowJobsSnoc(lons, lats, z, i, j);
      SnocAssoc(requests0, RowJobs(lons, lats, z, i, j), request);
      FailedAppend(requests, request, fails);
      requests := requests + [request];
      if (z, i, j) in fails {
        errors := errors + [request];
      }
    }
  }

  /** The middle loop: every cell of zoom z. */
  method RequestZoom(lons: seq<real>, lats: seq<real>, z: int, g: nat, fails: set<(int, int, int)>,
                     requests0: seq<Request>, errors0: seq<Request>)
    returns (requests: seq<Request>, errors: seq<Request>)
    requires g < |lons| && g < |lats| && errors0 == Failed(requests0, fails)
    ensures requests == requests0 + ZoomJobs(lons, lats, z, g, g)
    ensures errors == Failed(requests, fails)
  {
    requests, errors := requests0, errors0;
    for i := 0 to g
      invariant requests == requests0 + ZoomJobs(lons, lats, z, i, g)
      invariant errors == Failed(requests, fails)
    {
      var before := requests;
      requests, errors := RequestColumn(lons, lats, z, i, g, fails, requests, errors);
      assert requests == requests0 + ZoomJobs(lons, lats, z, i + 1, g) by {
        assert requests == (requests0 + ZoomJobs(lons, lats, z, i, g)) + RowJobs(lons, lats, z, i, g);
      }
    }
  }

  /** `precache_region_latlon` with the bounding box (lon_min, lat_min, lon_max, lat_max). */
  method PrecacheRegion(lonMin: real, latMin: real, lonMax: real, latMax: real,
                        zmin: int, zmax: int, grid: int, fails: set<(int, int, int)>)
    returns (r: Result<Run>)
    ensures grid == 0 <==> r == Err(ZeroDivision)
    ensures r.Ok? ==> r.value.totalJobs == (zmax - zmin + 1) * (grid * grid)
    ensures r.Ok? ==> r.value.job == |r.value.requests|
    ensures r.Ok? ==> r.value.errors == Failed(r.value.requests, fails)
    ensures grid < 0 ==> r.Ok? && r.value.requests == []
    ensures grid > 0 ==>
      (r.Ok? && r.value.requests ==
       Jobs(Linspace(lonMin, lonMax, grid).value, Linspace(latMin, latMax, grid).value, zmin, zmax + 1, grid))
    ensures grid > 0 && zmax + 1 >= zmin ==> r.Ok? && r.value.job == r.value.totalJobs
  {
    var lonPoints := Linspace(lonMin, lonMax, grid);
    var latPoints := Linspace(latMin, latMax, grid);
    if grid == 0 {
      return Err(ZeroDivision);
    }
    var lons := lonPoints.value;
    var lats := latPoints.value;
    var totalJobs := (zmax - zmin + 1) * (grid * grid);
    if grid < 0 {
      return Ok(Run(totalJobs, 0, [], []));
    }
    var g: nat := grid;
    var job: nat := 0;
    var requests: seq<Request> := [];
    var errors: seq<Request> := [];
    if zmin <= zmax + 1 {
      for z := zmin to zmax + 1
        invariant requests == Jobs(lons, lats, zmin, z, g)
        invariant job == |requests| && errors == Failed(requests, fails)
      {
        var before := |requests|;
        requests, errors := RequestZoom(lons, lats, z, g, fails, requests, errors);
        job := job + (|requests| - before);
      }
    }
    r := Ok(Run(totalJobs, job, requests, errors));
  }
}
