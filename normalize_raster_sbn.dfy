/**
 * Min-max normalisation of SbN suitability rasters to [0, 1], block by
 * block, with the two degenerate cases (no valid cell, a constant raster),
 * the output profile rules and the choice of input files.
 *
 * A raster band is an `array2<Option<real>>`: `None` marks a masked
 * (nodata) cell. The written band is an `array2<real>` whose masked cells
 * hold the nodata value.
 */
module NormalizeRasterSbn {
  import opened Wrappers
  import opened PyNum

  const OutputNodata: real := -9999.0

  /** `min(256, height, width)`. */
  function BlockSize(height: nat, width: nat): (bs: nat)
    ensures bs <= 256 && bs <= height && bs <= width
    ensures bs == 256 || bs == height || bs == width
    ensures height > 0 && width > 0 ==> bs > 0
  {
    if height <= width && height <= 256 then height
    else if width <= 256 then width
    else 256
  }

  /** The window starting at (`row`, `col`), clipped at the raster's edge. */
  function WindowExtent(start: nat, size: nat, bs: nat): (e: nat)
    ensures start < size ==> e > 0 || bs == 0
    ensures start + e <= size || start >= size
    ensures e <= bs
  {
    if start >= size then 0 else Min(bs, size - start)
  }

  /** The window starts the block loops visit: 0, bs, 2·bs, … below `size`. */
  function WindowStarts(start: nat, size: nat, bs: nat): (r: seq<nat>)
    requires bs > 0
    decreases size - start
  {
    if start >= size then [] else [start] + WindowStarts(start + bs, size, bs)
  }

  predicate InWindow(i: nat, start: nat, size: nat, bs: nat)
  {
    start <= i < start + WindowExtent(start, size, bs)
  }

  /**
   * The windows tile the axis: every position at or after `start` lies in
   * exactly one of them, the one whose index is returned.
   */
  function WindowOf(start: nat, size: nat, bs: nat, i: nat): (k: nat)
    requires bs > 0 && start <= i < size
    ensures k < |WindowStarts(start, size, bs)| && InWindow(i, WindowStarts(start, size, bs)[k], size, bs)
    ensures forall m :: 0 <= m < |WindowStarts(start, size, bs)| && m != k ==>
              !InWindow(i, WindowStarts(start, size, bs)[m], size, bs)
    decreases size - start
  {
    if i < start + WindowExtent(start, size, bs) then
      LaterWindowsStartAfter(start + bs, size, bs);
      0
    else
      var k := WindowOf(start + bs, size, bs, i);
      k + 1
  }

  lemma {:induction false} LaterWindowsStartAfter(start: nat, size: nat, bs: nat)
    requires bs > 0
    ensures forall m :: 0 <= m < |WindowStarts(start, size, bs)| ==> WindowStarts(start, size, bs)[m] >= start
    decreases size - start
  {
    if start < size {
      LaterWindowsStartAfter(start + bs, size, bs);
    }
  }

  /** No cell of the band is valid. */
  predicate NoValidCell(src: array2<Option<real>>)
    reads src
  {
    forall i, j :: 0 <= i < src.Length0 && 0 <= j < src.Length1 ==> src[i, j].None?
  }

  /** `lo` and `hi` are the smallest and largest valid values of the band. */
  predicate IsRange(src: array2<Option<real>>, lo: real, hi: real)
    reads src
  {
    && (forall i, j :: 0 <= i < src.Length0 && 0 <= j < src.Length1 && src[i, j].Some? ==>
          lo <= src[i, j].value <= hi)
    && (exists i, j :: 0 <= i < src.Length0 && 0 <= j < src.Length1 && src[i, j] == Some(lo))
    && (exists i, j :: 0 <= i < src.Length0 && 0 <= j < src.Length1 && src[i, j] == Some(hi))
  }

  /** The part of the band a block loop has finished: earlier row bands, then earlier windows of this band. */
  predicate Done(i: int, j: int, row: int, bh: int, col: int)
  {
    i < row || (row <= i < row + bh && j < col)
  }

  /** The valid extremes of one window (`block.min()`, `block.max()`), `None` when `block.count() == 0`. */
  method WindowRange(src: array2<Option<real>>, row: nat, col: nat, bh: nat, bw: nat)
    returns (lo: Option<real>, hi: Option<real>, ghost li: nat, ghost lj: nat, ghost hi_i: nat, ghost hj: nat)
    requires row + bh <= src.Length0 && col + bw <= src.Length1
    ensures lo.None? <==> hi.None?
    ensures lo.None? ==> forall i, j :: row <= i < row + bh && col <= j < col + bw ==> src[i, j].None?
    ensures lo.Some? ==> forall i, j :: row <= i < row + bh && col <= j < col + bw && src[i, j].Some? ==>
              lo.value <= src[i, j].value <= hi.value
    ensures lo.Some? ==> row <= li < row + bh && col <= lj < col + bw && src[li, lj] == lo
    ensures lo.Some? ==> row <= hi_i < row + bh && col <= hj < col + bw && src[hi_i, hj] == hi
  {
    lo, hi := None, None;
    li, lj, hi_i, hj := 0, 0, 0, 0;
    var i := row;
    while i < row + bh
      invariant row <= i <= row + bh
      invariant lo.None? <==> hi.None?
      invariant lo.None? ==> forall a, b :: row <= a < i && col <= b < col + bw ==> src[a, b].None?
      invariant lo.Some? ==> forall a, b :: row <= a < i && col <= b < col + bw && src[a, b].Some? ==>
                  lo.value <= src[a, b].value <= hi.value
      invariant lo.Some? ==> row <= li < row + bh && col <= lj < col + bw && src[li, lj] == lo
      invariant lo.Some? ==> row <= hi_i < row + bh && col <= hj < col + bw && src[hi_i, hj] == hi
    {
      var j := col;
      while j < col + bw
        invariant col <= j <= col + bw
        invariant lo.None? <==> hi.None?
        invariant lo.None? ==> forall a, b :: col <= b < col + bw && (row <= a < i || (a == i && b < j)) ==> src[a, b].None?
        invariant lo.Some? ==> forall a, b :: col <= b < col + bw && (row <= a < i || (a == i && b < j)) && src[a, b].Some? ==>
                    lo.value <= src[a, b].value <= hi.value
        invariant lo.Some? ==> row <= li < row + bh && col <= lj < col + bw && src[li, lj] == lo
        invariant lo.Some? ==> row <= hi_i < row + bh && col <= hj < col + bw && src[hi_i, hj] == hi
      {
        var c := src[i, j];
        if c.Some? {
          if lo.None? || c.value < lo.value {
            lo := c;
            li, lj := i, j;
          }
          if hi.None? || c.value > hi.value {
            hi := c;
            hi_i, hj := i, j;
          }
        }
        j := j + 1;
      }
      i := i + 1;
    }
  }

  /** Pass 1 of `_normalize_single_raster`: the global valid minimum and maximum, window by window. */
  method GlobalRange(src: array2<Option<real>>, bs: nat) returns (lo: Option<real>, hi: Option<real>)
    requires bs > 0
    ensures lo.None? <==> hi.None?
    ensures lo.None? <==> NoValidCell(src)
    ensures lo.Some? ==> IsRange(src, lo.value, hi.value)
  {
    var h, w := src.Length0, src.Length1;
    lo, hi := None, None;
    ghost var li: nat, lj: nat, hi_i: nat, hj: nat := 0, 0, 0, 0;
    var row := 0;
    while row < h
      invariant 0 <= row
      invariant lo.None? <==> hi.None?
      invariant lo.None? ==> forall i, j :: 0 <= i < h && 0 <= j < w && i < row ==> src[i, j].None?
      invariant lo.Some? ==> forall i, j :: 0 <= i < h && 0 <= j < w && i < row && src[i, j].Some? ==>
                  lo.value <= src[i, j].value <= hi.value
      invariant lo.Some? ==> li < h && lj < w && src[li, lj] == lo
      invariant lo.Some? ==> hi_i < h && hj < w && src[hi_i, hj] == hi
    {
      var bh := Min(bs, h - row);
      var col := 0;
      while col < w
        invariant 0 <= col
        invariant lo.None? <==> hi.None?
        invariant lo.None? ==> forall i, j :: 0 <= i < h && 0 <= j < w && Done(i, j, row, bh, col) ==> src[i, j].None?
        invariant lo.Some? ==> forall i, j :: 0 <= i < h && 0 <= j < w && Done(i, j, row, bh, col) && src[i, j].Some? ==>
                    lo.value <= src[i, j].value <= hi.value
        invariant lo.Some? ==> li < h && lj < w && src[li, lj] == lo
        invariant lo.Some? ==> hi_i < h && hj < w && src[hi_i, hj] == hi
      {
        var bw := Min(bs, w - col);
        var blo, bhi, bli, blj, bhi_i, bhj := WindowRange(src, row, col, bh, bw);
        if blo.Some? {
          if lo.None? || blo.value < lo.value {
            lo := blo;
            li, lj := bli, blj;
          }
          if hi.None? || bhi.value > hi.value {
            hi := bhi;
            hi_i, hj := bhi_i, bhj;
          }
        }
        col := col + bs;
      }
      row := row + bs;
    }
  }

  /**
   * Pass 2 (and the two degenerate writers): every cell of the new band is
   * `f` of the cell it replaces, written window by window.
   */
  method WriteByWindows(src: array2<Option<real>>, bs: nat, f: Option<real> -> real) returns (out: array2<real>)
    requires bs > 0
    ensures fresh(out) && out.Length0 == src.Length0 && out.Length1 == src.Length1
    ensures forall i, j :: 0 <= i < out.Length0 && 0 <= j < out.Length1 ==> out[i, j] == f(src[i, j])
  {
    var h, w := src.Length0, src.Length1;
    out := new real[h, w];
    var row := 0;
    while row < h
      invariant forall i, j :: 0 <= i < h && 0 <= j < w && i < row ==> out[i, j] == f(src[i, j])
    {
      var bh := Min(bs, h - row);
      var col := 0;
      while col < w
        invariant forall i, j :: 0 <= i < h && 0 <= j < w && Done(i, j, row, bh, col) ==> out[i, j] == f(src[i, j])
      {
        var bw := Min(bs, w - col);
        WriteWindow(src, out, row, col, bh, bw, f);
        col := col + bs;
      }
      row := row + bs;
    }
  }

  /** `dst.write(..., window=window)`: only the window's cells change. */
  method WriteWindow(src: array2<Option<real>>, out: array2<real>, row: nat, col: nat, bh: nat, bw: nat, f: Option<real> -> real)
    requires out.Length0 == src.Length0 && out.Length1 == src.Length1
    requires row + bh <= src.Length0 && col + bw <= src.Length1
    modifies out
    ensures forall i, j :: 0 <= i < out.Length0 && 0 <= j < out.Length1 ==>
              out[i, j] == if row <= i < row + bh && col <= j < col + bw then f(src[i, j]) else old(out[i, j])
  {
    var i := row;
    while i < row + bh
      invariant row <= i <= row + bh
      invariant forall a, b :: 0 <= a < out.Length0 && 0 <= b < out.Length1 ==>
                  out[a, b] == if row <= a < i && col <= b < col + bw then f(src[a, b]) else old(out[a, b])
    {
      var j := col;
      while j < col + bw
        invariant col <= j <= col + bw
        invariant forall a, b :: 0 <= a < out.Length0 && 0 <= b < out.Length1 ==>
                    out[a, b] == if col <= b < col + bw && (row <= a < i || (a == i && b < j)) then f(src[a, b]) else old(out[a, b])
      {
        out[i, j] := f(src[i, j]);
        j := j + 1;
      }
      i := i + 1;
    }
  }

  /** `(v - min) / (max - min)`, the masked value filled with −9999. */
  function Scaled(c: Option<real>, lo: real, hi: real): real
    requires lo < hi
  {
    if c.None? then OutputNodata else (c.value - lo) / (hi - lo)
  }

  /** A valid value in [min, max] lands in [0, 1]; min goes to 0 and max to 1. */
  lemma ScaledRange(v: real, lo: real, hi: real)
    requires lo < hi && lo <= v <= hi
    ensures 0.0 <= Scaled(Some(v), lo, hi) <= 1.0
    ensures v == lo ==> Scaled(Some(v), lo, hi) == 0.0
    ensures v == hi ==> Scaled(Some(v), lo, hi) == 1.0
  {
    var d := hi - lo;
    assert (v - lo) / d * d == v - lo;
    if (v - lo) / d > 1.0 {
      assert (v - lo) / d * d > 1.0 * d;
    }
  }

  /** The masked-preserving constant writer: valid cells get `k`, masked cells −9999. */
  function ConstantFill(k: real): Option<real> -> real
  {
    (c: Option<real>) => if c.None? then OutputNodata else k
  }

  // ---------------------------------------------------------------------
  // Output profile
  // ---------------------------------------------------------------------

  const IntegerDTypes: set<string> := {"int8", "int16", "int32", "int64", "uint8", "uint16", "uint32", "uint64"}

  predicate IsIntegerDType(dtype: string)
  {
    dtype in IntegerDTypes
  }

  /** `part in s` for strings. */
  predicate Contains(s: string, part: string)
    decreases |s|
  {
    |part| <= |s| && (s[..|part|] == part || Contains(s[1..], part))
  }

  /** The creation options of the written raster. */
  datatype Profile = Profile(dtype: string, nodata: real, compress: string, zstdLevel: Option<int>,
                             predictor: int, tiled: bool, bigTiff: bool)

  /** `_get_compression_config`: float types get ZSTD level 9 with predictor 3, the rest LZW with predictor 2. */
  function CompressionConfig(dtype: string): (r: (string, Option<int>, int))
    ensures Contains(dtype, "float") ==> r == ("ZSTD", Some(9), 3)
    ensures !Contains(dtype, "float") ==> r == ("LZW", None, 2)
  {
    if Contains(dtype, "float") then ("ZSTD", Some(9), 3) else ("LZW", None, 2)
  }

  /** The written profile: integer types become float32, nodata is always −9999. */
  function OutputProfile(dtype: string, bigTiff: bool): (p: Profile)
    ensures IsIntegerDType(dtype) ==> p.dtype == "float32" && p.compress == "ZSTD"
    ensures !IsIntegerDType(dtype) ==> p.dtype == dtype
    ensures p.nodata == OutputNodata && !p.tiled
  {
    var dt := if IsIntegerDType(dtype) then "float32" else dtype;
    assert IsIntegerDType(dtype) ==> dt[0..5] == "float";
    var (compress, level, predictor) := CompressionConfig(dt);
    Profile(dt, OutputNodata, compress, level, predictor, false, bigTiff)
  }

  // ---------------------------------------------------------------------
  // One raster
  // ---------------------------------------------------------------------

  const EmptyRasterError := "ValueError"

  /**
   * `_normalize_single_raster`: returns (max value, has data) and the band
   * written over the raster. An empty raster makes the block loops' step
   * zero, which raises.
   */
  method NormalizeSingleRaster(src: array2<Option<real>>, dtype: string)
    returns (r: Result<(real, bool)>, out: array2<real>, profile: Profile)
    ensures r.Err? <==> src.Length0 == 0 || src.Length1 == 0
    ensures r.Ok? ==> out.Length0 == src.Length0 && out.Length1 == src.Length1
    ensures r.Ok? && NoValidCell(src) ==> r.value == (0.0, false) && profile == OutputProfile(dtype, false)
    ensures r.Ok? && NoValidCell(src) ==> forall i, j :: 0 <= i < out.Length0 && 0 <= j < out.Length1 ==>
              out[i, j] == if src[i, j].None? then OutputNodata else 0.0
    ensures r.Ok? && !NoValidCell(src) ==> r.value.1 && exists lo :: IsRange(src, lo, r.value.0)
    ensures r.Ok? && !NoValidCell(src) && IsRange(src, r.value.0, r.value.0) ==>
              profile == OutputProfile(dtype, false) &&
              forall i, j :: 0 <= i < out.Length0 && 0 <= j < out.Length1 ==>
                out[i, j] == if src[i, j].None? then OutputNodata else 0.5
    ensures r.Ok? && !NoValidCell(src) && !IsRange(src, r.value.0, r.value.0) ==>
              profile == OutputProfile(dtype, true) &&
              exists lo :: lo < r.value.0 && IsRange(src, lo, r.value.0) &&
                forall i, j :: 0 <= i < out.Length0 && 0 <= j < out.Length1 ==> out[i, j] == Scaled(src[i, j], lo, r.value.0)
  {
    out := new real[0, 0];
    profile := OutputProfile(dtype, false);
    if src.Length0 == 0 || src.Length1 == 0 {
      return Err(EmptyRasterError), out, profile;
    }
    var bs := BlockSize(src.Length0, src.Length1);
    var lo, hi := GlobalRange(src, bs);
    if lo.None? {
      out := WriteConstant(src, bs, 0.0);
      return Ok((0.0, false)), out, profile;
    }
    if lo.value == hi.value {
      out := WriteConstant(src, bs, 0.5);
      assert IsRange(src, hi.value, hi.value);
      return Ok((hi.value, true)), out, profile;
    }
    RangeOrdered(src, lo.value, hi.value);
    profile := OutputProfile(dtype, true);
    out := WriteScaled(src, bs, lo.value, hi.value);
    assert IsRange(src, lo.value, hi.value);
    return Ok((hi.value, true)), out, profile;
  }

  /** A constant band: `k` on valid cells, −9999 on masked ones. */
  method WriteConstant(src: array2<Option<real>>, bs: nat, k: real) returns (out: array2<real>)
    requires bs > 0
    ensures out.Length0 == src.Length0 && out.Length1 == src.Length1
    ensures forall i, j :: 0 <= i < out.Length0 && 0 <= j < out.Length1 ==>
              out[i, j] == if src[i, j].None? then OutputNodata else k
  {
    out := WriteByWindows(src, bs, ConstantFill(k));
  }

  /** The min-max scaled band, for a raster whose values are not all equal. */
  method WriteScaled(src: array2<Option<real>>, bs: nat, lo: real, hi: real) returns (out: array2<real>)
    requires bs > 0 && IsRange(src, lo, hi) && lo < hi
    ensures out.Length0 == src.Length0 && out.Length1 == src.Length1
    ensures !IsRange(src, hi, hi)
    ensures forall i, j :: 0 <= i < out.Length0 && 0 <= j < out.Length1 ==> out[i, j] == Scaled(src[i, j], lo, hi)
  {
    out := WriteByWindows(src, bs, c => Scaled(c, lo, hi));
    NotConstant(src, lo, hi);
  }

  lemma RangeOrdered(src: array2<Option<real>>, lo: real, hi: real)
    requires IsRange(src, lo, hi)
    ensures lo <= hi
  {
  }

  lemma NotConstant(src: array2<Option<real>>, lo: real, hi: real)
    requires IsRange(src, lo, hi) && lo < hi
    ensures !IsRange(src, hi, hi)
  {
  }

  // ---------------------------------------------------------------------
  // Input selection and the result dictionary
  // ---------------------------------------------------------------------

  /** What the input path turned out to be: a list of paths, one file, a directory's files, or nothing. */
  datatype RasterInput = PathList(paths: seq<string>) | SingleFile(path: string) | Directory(files: seq<string>) | Other

  /** `Path.suffix`: from the last dot of the name, if that dot is neither first nor last. */
  function Suffix(name: string): (r: string)
    ensures |r| <= |name|
  {
    if |name| == 0 then ""
    else if name[|name| - 1] == '.' then ""
    else LastDotSuffix(name, |name|)
  }

  function LastDotSuffix(name: string, k: nat): (r: string)
    requires k <= |name|
    ensures |r| <= |name|
  {
    if k <= 1 then ""
    else if name[k - 1] == '.' then name[k - 1..]
    else LastDotSuffix(name, k - 1)
  }

  predicate IsRasterName(name: string)
  {
    LowerString(Suffix(name)) in {".tif", ".tiff", ".img", ".vrt"}
  }

  /** `_get_raster_list`: a list as given, a file alone, a directory's raster files, else nothing. */
  function RasterList(input: RasterInput): (r: seq<string>)
    ensures input.PathList? ==> r == input.paths
    ensures input.SingleFile? ==> r == [input.path]
    ensures input.Directory? ==> forall k :: 0 <= k < |r| ==> r[k] in input.files && IsRasterName(r[k])
    ensures input.Directory? ==> forall f :: f in input.files && IsRasterName(f) ==> f in r
    ensures input.Other? ==> r == []
  {
    match input
    case PathList(ps) => ps
    case SingleFile(p) => [p]
    case Directory(fs) => RasterFiles(fs)
    case Other => []
  }

  function RasterFiles(fs: seq<string>): (r: seq<string>)
    ensures forall k :: 0 <= k < |r| ==> r[k] in fs && IsRasterName(r[k])
    ensures forall f :: f in fs && IsRasterName(f) ==> f in r
  {
    if fs == [] then []
    else (if IsRasterName(fs[0]) then [fs[0]] else []) + RasterFiles(fs[1..])
  }

  lemma SuffixExamples()
    ensures IsRasterName("SbN_01.TIF") && IsRasterName("mosaic.vrt")
    ensures !IsRasterName("SbN_01.tif.aux.xml") && !IsRasterName(".tif")
  {
    UpperTifSuffix();
    VrtSuffix();
    AuxSuffix();
    HiddenSuffix();
  }

  /** The extension test ignores case. */
  lemma UpperTifSuffix()
    ensures Suffix("SbN_01.TIF") == ".TIF" && IsRasterName("SbN_01.TIF")
  {
    assert LastDotSuffix("SbN_01.TIF", 10) == LastDotSuffix("SbN_01.TIF", 7);
    assert LowerString(".TIF") == ".tif";
  }

  lemma VrtSuffix()
    ensures Suffix("mosaic.vrt") == ".vrt" && IsRasterName("mosaic.vrt")
  {
    assert LastDotSuffix("mosaic.vrt", 10) == LastDotSuffix("mosaic.vrt", 7);
    assert LowerString(".vrt") == ".vrt";
  }

  /** Only the last extension counts: an auxiliary file is not a raster. */
  lemma AuxSuffix()
    ensures Suffix("SbN_01.tif.aux.xml") == ".xml" && !IsRasterName("SbN_01.tif.aux.xml")
  {
    assert LastDotSuffix("SbN_01.tif.aux.xml", 18) == LastDotSuffix("SbN_01.tif.aux.xml", 15);
    assert LowerString(".xml") == ".xml";
  }

  /** A leading dot starts a hidden name, not an extension. */
  lemma HiddenSuffix()
    ensures Suffix(".tif") == "" && !IsRasterName(".tif")
  {
    assert LastDotSuffix(".tif", 4) == LastDotSuffix(".tif", 1);
    assert LowerString("") == "";
  }

  /** The information of one raster. */
  datatype Info = Info(maxValue: real, hasData: bool)

  /** The dictionary `normalize_raster` returns: nothing, one raster's info, or info by path. */
  datatype Report = NoRasters | One(info: Info) | ByPath(infos: map<string, Info>)

  /** A raster that raised is reported with max 0.0 and no data. */
  function InfoOf(outcome: Result<(real, bool)>): Info
  {
    match outcome
    case Ok((m, d)) => Info(m, d)
    case Err(_) => Info(0.0, false)
  }

  /** The info by path after recording `outcomes` one after another: a repeated path keeps its last info. */
  function InfoMap(files: seq<string>, outcomes: seq<Result<(real, bool)>>): map<string, Info>
    requires |files| == |outcomes|
  {
    if files == [] then map[]
    else InfoMap(files[..|files| - 1], outcomes[..|files| - 1])[files[|files| - 1] := InfoOf(outcomes[|files| - 1])]
  }

  /** The paths recorded are exactly the paths given. */
  lemma {:induction false} InfoMapKeys(files: seq<string>, outcomes: seq<Result<(real, bool)>>)
    requires |files| == |outcomes|
    ensures forall x :: x in InfoMap(files, outcomes) <==> x in files
  {
    if files != [] {
      var n := |files| - 1;
      InfoMapKeys(files[..n], outcomes[..n]);
      assert files == files[..n] + [files[n]];
    }
  }

  /** A path not repeated after position `k` keeps the info of outcome `k`. */
  lemma {:induction false} InfoMapLastWins(files: seq<string>, outcomes: seq<Result<(real, bool)>>, k: nat)
    requires |files| == |outcomes| && k < |files|
    requires forall m :: k < m < |files| ==> files[m] != files[k]
    ensures files[k] in InfoMap(files, outcomes) && InfoMap(files, outcomes)[files[k]] == InfoOf(outcomes[k])
  {
    var n := |files| - 1;
    if k < n {
      assert files[..n][k] == files[k];
      forall m | k < m < n
        ensures files[..n][m] != files[..n][k]
      {
        assert files[..n][m] == files[m];
      }
      InfoMapLastWins(files[..n], outcomes[..n], k);
    }
  }

  lemma InfoMapStep(files: seq<string>, outcomes: seq<Result<(real, bool)>>, i: nat)
    requires |files| == |outcomes| && i < |files|
    ensures InfoMap(files[..i + 1], outcomes[..i + 1]) == InfoMap(files[..i], outcomes[..i])[files[i] := InfoOf(outcomes[i])]
  {
    assert files[..i + 1][..i] == files[..i];
    assert outcomes[..i + 1][..i] == outcomes[..i];
  }

  /** The loop of `normalize_raster`: records each outcome under its path, noting whether all paths are the first. */
  method RecordAll(files: seq<string>, outcomes: seq<Result<(real, bool)>>) returns (results: map<string, Info>, allSame: bool)
    requires |files| == |outcomes| && |files| > 0
    ensures results == InfoMap(files, outcomes)
    ensures allSame <==> forall k :: 0 <= k < |files| ==> files[k] == files[0]
  {
    results := map[];
    allSame := true;
    var i := 0;
    while i < |files|
      invariant 0 <= i <= |files|
      invariant results == InfoMap(files[..i], outcomes[..i])
      invariant allSame <==> forall k :: 0 <= k < i ==> files[k] == files[0]
    {
      InfoMapStep(files, outcomes, i);
      results := results[files[i] := InfoOf(outcomes[i])];
      allSame := allSame && files[i] == files[0];
      i := i + 1;
    }
    assert files[..i] == files && outcomes[..i] == outcomes;
  }

  /**
   * `normalize_raster`: `outcomes[k]` is what normalising the k-th raster
   * returned. One distinct path makes the info itself the result.
   */
  method NormalizeRaster(input: RasterInput, outcomes: seq<Result<(real, bool)>>) returns (r: Report)
    requires |outcomes| == |RasterList(input)|
    ensures RasterList(input) == [] ==> r == NoRasters
    ensures RasterList(input) != [] && (forall k :: 0 <= k < |RasterList(input)| ==> RasterList(input)[k] == RasterList(input)[0]) ==>
              r == One(InfoOf(outcomes[|outcomes| - 1]))
    ensures RasterList(input) != [] && (exists k :: 0 <= k < |RasterList(input)| && RasterList(input)[k] != RasterList(input)[0]) ==>
              r.ByPath?
    ensures r.ByPath? ==> r.infos == InfoMap(RasterList(input), outcomes)
  {
    var files := RasterList(input);
    if files == [] {
      return NoRasters;
    }
    var results, allSame := RecordAll(files, outcomes);
    if allSame {
      InfoMapLastWins(files, outcomes, |files| - 1);
      return One(results[files[0]]);
    }
    return ByPath(results);
  }

  /** A report by path has exactly the listed paths as keys, each with the info of its last outcome. */
  lemma ByPathReport(input: RasterInput, outcomes: seq<Result<(real, bool)>>, k: nat)
    requires |outcomes| == |RasterList(input)| && k < |outcomes|
    requires forall m :: k < m < |outcomes| ==> RasterList(input)[m] != RasterList(input)[k]
    ensures forall x :: x in InfoMap(RasterList(input), outcomes) <==> x in RasterList(input)
    ensures InfoMap(RasterList(input), outcomes)[RasterList(input)[k]] == InfoOf(outcomes[k])
  {
    InfoMapKeys(RasterList(input), outcomes);
    InfoMapLastWins(RasterList(input), outcomes, k);
  }
}
