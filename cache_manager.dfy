/**
 * The map-tile cache keeper: it sums the sizes of the cached files and,
 * over the limit, deletes the least recently accessed ones until the cache
 * is back under the target size.
 */
module CacheManager {
  import opened Sorting

  const BytesPerMb := 1024 * 1024

  /**
   * One file found while walking the cache. `listed` is whether reading its
   * access time and size succeeds, so that `get_all_cache_files` lists it;
   * `removable` is whether `os.remove` succeeds on it.
   */
  datatype CacheFile = CacheFile(path: string, atime: real, size: nat, listed: bool, removable: bool)

  function TotalSize(fs: seq<CacheFile>): nat
    decreases |fs|
  {
    if fs == [] then 0 else TotalSize(fs[..|fs| - 1]) + fs[|fs| - 1].size
  }

  lemma {:induction false} TotalSizeAppend(a: seq<CacheFile>, b: seq<CacheFile>)
    ensures TotalSize(a + b) == TotalSize(a) + TotalSize(b)
    decreases |b|
  {
    if b == [] {
      assert a + b == a;
    } else {
      assert (a + b)[..|a + b| - 1] == a + b[..|b| - 1];
      TotalSizeAppend(a, b[..|b| - 1]);
    }
  }

  lemma TotalSizeSnoc(fs: seq<CacheFile>, f: CacheFile)
    ensures TotalSize(fs + [f]) == TotalSize(fs) + f.size
  {
    assert (fs + [f])[..|fs|] == fs;
  }

  lemma TotalSizeCons(f: CacheFile, fs: seq<CacheFile>)
    ensures TotalSize([f] + fs) == f.size + TotalSize(fs)
  {
    TotalSizeAppend([f], fs);
    assert [f][..0] == [];
  }

  /** The files `get_all_cache_files` returns: those whose access time and size can be read, in walk order. */
  function Listed(fs: seq<CacheFile>): (r: seq<CacheFile>)
    ensures |r| <= |fs|
    ensures forall f :: f in r <==> f in fs && f.listed
    decreases |fs|
  {
    if fs == [] then []
    else Listed(fs[..|fs| - 1]) + (if fs[|fs| - 1].listed then [fs[|fs| - 1]] else [])
  }

  /** The files `get_all_cache_files` skips: counted in the cache size, never listed for deletion. */
  function Unlisted(fs: seq<CacheFile>): (r: seq<CacheFile>)
    ensures forall f :: f in r <==> f in fs && !f.listed
    decreases |fs|
  {
    if fs == [] then []
    else Unlisted(fs[..|fs| - 1]) + (if fs[|fs| - 1].listed then [] else [fs[|fs| - 1]])
  }

  /** Every walked file is either listed or skipped, so the sizes and counts of the two parts add up. */
  lemma {:induction false} ListedSplit(fs: seq<CacheFile>)
    ensures TotalSize(Listed(fs)) + TotalSize(Unlisted(fs)) == TotalSize(fs)
    ensures |Listed(fs)| + |Unlisted(fs)| == |fs|
    decreases |fs|
  {
    if fs != [] {
      var init, f := fs[..|fs| - 1], fs[|fs| - 1];
      ListedSplit(init);
      assert TotalSize(fs) == TotalSize(init) + f.size;
      if f.listed {
        assert Listed(fs) == Listed(init) + [f];
        assert Unlisted(fs) == Unlisted(init);
        TotalSizeSnoc(Listed(init), f);
      } else {
        assert Listed(fs) == Listed(init);
        assert Unlisted(fs) == Unlisted(init) + [f];
        TotalSizeSnoc(Unlisted(init), f);
      }
    }
  }

  /** `files.sort(key=lambda x: x[1])` compares access times. */
  function AtimeLe(a: CacheFile, b: CacheFile): bool
  {
    a.atime <= b.atime
  }

  lemma AtimeLeTotal()
    ensures TotalPreorder(AtimeLe)
  {
  }

  /** The outcome of the deletion loop: the files removed, in order, and those left. */
  datatype Sweep = Sweep(deleted: seq<CacheFile>, kept: seq<CacheFile>)

  /**
   * The deletion loop over files in access order, `left` being the cache
   * size not yet deleted: it stops as soon as `left` is at most `target`;
   * a file whose removal fails stays and counts for nothing.
   */
  function SweepFiles(fs: seq<CacheFile>, left: int, target: int): (r: Sweep)
    decreases |fs|
  {
    if fs == [] then Sweep([], [])
    else if left <= target then Sweep([], fs)
    else if fs[0].removable then
      var rest := SweepFiles(fs[1..], left - fs[0].size, target);
      Sweep([fs[0]] + rest.deleted, rest.kept)
    else
      var rest := SweepFiles(fs[1..], left, target);
      Sweep(rest.deleted, [fs[0]] + rest.kept)
  }

  /** Every file is either deleted or kept, so sizes and counts add up. */
  lemma SweepAccounts(fs: seq<CacheFile>, left: int, target: int)
    ensures var r := SweepFiles(fs, left, target);
      multiset(r.deleted) + multiset(r.kept) == multiset(fs)
      && TotalSize(r.deleted) + TotalSize(r.kept) == TotalSize(fs)
      && |r.deleted| + |r.kept| == |fs|
  {
    SweepMultiset(fs, left, target);
    SweepTotal(fs, left, target);
  }

  /** The deletion loop splits the files: together, deleted and kept are the files given. */
  lemma {:induction false} SweepMultiset(fs: seq<CacheFile>, left: int, target: int)
    ensures var r := SweepFiles(fs, left, target);
      multiset(r.deleted) + multiset(r.kept) == multiset(fs)
    decreases |fs|
  {
    var r := SweepFiles(fs, left, target);
    if fs == [] {
    } else if left <= target {
      assert r == Sweep([], fs);
      assert multiset(r.deleted) == multiset{};
    } else {
      var f, tail := fs[0], fs[1..];
      assert fs == [f] + tail;
      if f.removable {
        var rest := SweepFiles(tail, left - f.size, target);
        SweepMultiset(tail, left - f.size, target);
        assert r == Sweep([f] + rest.deleted, rest.kept);
        ConsSplit(f, tail, rest.deleted, rest.kept);
      } else {
        var rest := SweepFiles(tail, left, target);
        SweepMultiset(tail, left, target);
        assert r == Sweep(rest.deleted, [f] + rest.kept);
        ConsSplit(f, tail, rest.deleted, rest.kept);
      }
    }
  }

  /** Putting `f` in front of either part of a split of `tail` splits `[f] + tail`. */
  lemma ConsSplit<T>(f: T, tail: seq<T>, d: seq<T>, k: seq<T>)
    requires multiset(d) + multiset(k) == multiset(tail)
    ensures multiset([f] + d) + multiset(k) == multiset([f] + tail)
    ensures multiset(d) + multiset([f] + k) == multiset([f] + tail)
  {
  }

  /** The sizes of the deleted and the kept files add up to the size of the files given. */
  lemma {:induction false} SweepTotal(fs: seq<CacheFile>, left: int, target: int)
    ensures var r := SweepFiles(fs, left, target);
      TotalSize(r.deleted) + TotalSize(r.kept) == TotalSize(fs) && |r.deleted| + |r.kept| == |fs|
    decreases |fs|
  {
    var r := SweepFiles(fs, left, target);
    if fs == [] {
    } else if left <= target {
      assert r == Sweep([], fs);
    } else {
      var f, tail := fs[0], fs[1..];
      assert fs == [f] + tail;
      TotalSizeCons(f, tail);
      if f.removable {
        var rest := SweepFiles(tail, left - f.size, target);
        SweepTotal(tail, left - f.size, target);
        assert r == Sweep([f] + rest.deleted, rest.kept);
        TotalSizeCons(f, rest.deleted);
      } else {
        var rest := SweepFiles(tail, left, target);
        SweepTotal(tail, left, target);
        assert r == Sweep(rest.deleted, [f] + rest.kept);
        TotalSizeCons(f, rest.kept);
      }
    }
  }



  /** Only files whose removal succeeds are deleted; every failed one is kept. */
  lemma {:induction false} SweepDeletesRemovable(fs: seq<CacheFile>, left: int, target: int)
    ensures var r := SweepFiles(fs, left, target);
      (forall f :: f in r.deleted ==> f.removable)
      && (forall f :: f in fs && !f.removable ==> f in r.kept)
    decreases |fs|
  {
    if fs != [] && left > target {
      SweepDeletesRemovable(fs[1..], if fs[0].removable then left - fs[0].size else left, target);
      assert forall f :: f in fs ==> f == fs[0] || f in fs[1..];
    }
  }

  /** Deletion ends below the target, unless every removable file is already gone. */
  lemma {:induction false} SweepReachesTarget(fs: seq<CacheFile>, left: int, target: int)
    ensures var r := SweepFiles(fs, left, target);
      left - TotalSize(r.deleted) <= target || (forall f :: f in r.kept ==> !f.removable)
    decreases |fs|
  {
    if fs != [] && left > target {
      var rest := SweepFiles(fs[1..], if fs[0].removable then left - fs[0].size else left, target);
      SweepReachesTarget(fs[1..], if fs[0].removable then left - fs[0].size else left, target);
      if fs[0].removable {
        TotalSizeCons(fs[0], rest.deleted);
      }
    }
  }

  /** No file is deleted once the cache is at or under the target: each deletion starts above it. */
  lemma {:induction false} SweepStopsAtTarget(fs: seq<CacheFile>, left: int, target: int, i: nat)
    requires i < |SweepFiles(fs, left, target).deleted|
    ensures left - TotalSize(SweepFiles(fs, left, target).deleted[..i]) > target
    decreases |fs|
  {
    var r := SweepFiles(fs, left, target);
    assert fs != [] && left > target;
    if fs[0].removable {
      var rest := SweepFiles(fs[1..], left - fs[0].size, target);
      if i > 0 {
        SweepStopsAtTarget(fs[1..], left - fs[0].size, target, i - 1);
        assert r.deleted[..i] == [fs[0]] + rest.deleted[..i - 1];
        TotalSizeCons(fs[0], rest.deleted[..i - 1]);
      } else {
        assert r.deleted[..0] == [];
      }
    } else {
      SweepStopsAtTarget(fs[1..], left, target, i);
    }
  }

  lemma {:induction false} SweepKeptFrom(fs: seq<CacheFile>, left: int, target: int)
    ensures forall f :: f in SweepFiles(fs, left, target).kept ==> f in fs
    ensures forall f :: f in SweepFiles(fs, left, target).deleted ==> f in fs
  {
    SweepAccounts(fs, left, target);
    var r := SweepFiles(fs, left, target);
    forall f | f in r.kept ensures f in fs {
      assert f in multiset(r.kept);
      assert f in multiset(fs);
    }
    forall f | f in r.deleted ensures f in fs {
      assert f in multiset(r.deleted);
      assert f in multiset(fs);
    }
  }

  /** Over files in access order, the deleted files were all accessed no later than any removable file kept. */
  lemma {:induction false} SweepOldestFirst(fs: seq<CacheFile>, left: int, target: int)
    requires SortedBy(fs, AtimeLe)
    ensures var r := SweepFiles(fs, left, target);
      forall d, k :: d in r.deleted && k in r.kept && k.removable ==> d.atime <= k.atime
    decreases |fs|
  {
    if fs != [] && left > target {
      var next := if fs[0].removable then left - fs[0].size else left;
      var rest := SweepFiles(fs[1..], next, target);
      assert SortedBy(fs[1..], AtimeLe) by {
        forall i, j | 0 <= i < j < |fs[1..]| ensures AtimeLe(fs[1..][i], fs[1..][j]) {
          assert fs[1..][i] == fs[i + 1] && fs[1..][j] == fs[j + 1];
        }
      }
      SweepOldestFirst(fs[1..], next, target);
      SweepKeptFrom(fs[1..], next, target);
      forall k | k in fs[1..] ensures fs[0].atime <= k.atime {
        var m :| 0 <= m < |fs[1..]| && fs[1..][m] == k;
        assert fs[m + 1] == k;
      }
    }
  }

  /** The whole sweep, given what was deleted and kept before reaching `rest` with `left` bytes still cached. */
  predicate SweepFrom(all: Sweep, deleted: seq<CacheFile>, kept: seq<CacheFile>, rest: seq<CacheFile>,
                      left: int, target: int)
  {
    var r := SweepFiles(rest, left, target);
    all == Sweep(deleted + r.deleted, kept + r.kept)
  }

  lemma SweepFromStep(all: Sweep, deleted: seq<CacheFile>, kept: seq<CacheFile>, rest: seq<CacheFile>,
                      left: int, target: int)
    requires SweepFrom(all, deleted, kept, rest, left, target)
    requires rest != [] && left > target
    ensures rest[0].removable ==> SweepFrom(all, deleted + [rest[0]], kept, rest[1..], left - rest[0].size, target)
    ensures !rest[0].removable ==> SweepFrom(all, deleted, kept + [rest[0]], rest[1..], left, target)
  {
    var f := rest[0];
    if f.removable {
      var r := SweepFiles(rest[1..], left - f.size, target);
      assert deleted + ([f] + r.deleted) == (deleted + [f]) + r.deleted;
    } else {
      var r := SweepFiles(rest[1..], left, target);
      assert kept + ([f] + r.kept) == (kept + [f]) + r.kept;
    }
  }

  lemma SweepFromStop(all: Sweep, deleted: seq<CacheFile>, kept: seq<CacheFile>, rest: seq<CacheFile>,
                      left: int, target: int)
    requires SweepFrom(all, deleted, kept, rest, left, target)
    requires rest == [] || left <= target
    ensures all == Sweep(deleted, kept + rest)
  {
    assert deleted + [] == deleted;
    assert kept + [] == kept;
  }

  /** What `check_and_cleanup` returns: size in MB, file count and the limit in MB. */
  datatype CacheInfo = CacheInfo(sizeMb: real, fileCount: nat, maxMb: real)

  /** `CacheManager`: a size limit that triggers a cleanup and the size a cleanup aims for. */
  class Manager {
    const maxSizeBytes: int
    const targetSizeBytes: int

    /** The limits are given in MB and kept in bytes. */
    constructor(maxSizeMb: int, targetSizeMb: int)
      ensures maxSizeBytes == maxSizeMb * BytesPerMb && targetSizeBytes == targetSizeMb * BytesPerMb
    {
      maxSizeBytes := maxSizeMb * 1024 * 1024;
      targetSizeBytes := targetSizeMb * 1024 * 1024;
    }

    /** `get_cache_size`: the byte total and the number of files walked. */
    method GetCacheSize(files: seq<CacheFile>) returns (total: nat, count: nat)
      ensures total == TotalSize(files) && count == |files|
    {
      total := 0;
      count := 0;
      for i := 0 to |files|
        invariant total == TotalSize(files[..i]) && count == i
      {
        assert files[..i + 1][..i] == files[..i];
        total := total + files[i].size;
        count := count + 1;
      }
      assert files[..|files|] == files;
    }

    /** `get_all_cache_files`: the walk keeps each file whose access time and size can be read. */
    method GetAllCacheFiles(files: seq<CacheFile>) returns (listed: seq<CacheFile>)
      ensures listed == Listed(files)
    {
      listed := [];
      for i := 0 to |files|
        invariant listed == Listed(files[..i])
      {
        assert files[..i + 1][..i] == files[..i];
        if files[i].listed {
          listed := listed + [files[i]];
        }
      }
      assert files[..|files|] == files;
    }

    /**
     * `cleanup_cache`: under the limit nothing happens; otherwise the listed
     * files are visited oldest access first and removed until the size
     * measured over all files, less what was deleted, is at most the target.
     * The files left are the kept listed ones followed by the unlisted ones.
     */
    method CleanupCache(files: seq<CacheFile>) returns (remaining: seq<CacheFile>, deletedSize: nat, deletedCount: nat)
      ensures TotalSize(files) < maxSizeBytes ==> remaining == files && deletedSize == 0 && deletedCount == 0
      ensures TotalSize(files) >= maxSizeBytes ==>
        var r := SweepFiles(SortBy(Listed(files), AtimeLe), TotalSize(files), targetSizeBytes);
        remaining == r.kept + Unlisted(files) && deletedSize == TotalSize(r.deleted) && deletedCount == |r.deleted|
    {
      var total, fileCount := GetCacheSize(files);
      if total < maxSizeBytes {
        return files, 0, 0;
      }
      var listed := GetAllCacheFiles(files);
      var sorted := SortBy(listed, AtimeLe);
      var kept;
      kept, deletedSize, deletedCount := SweepLoop(sorted, total, targetSizeBytes);
      remaining := kept + Unlisted(files);
    }

    /** `check_and_cleanup`: cleans only strictly over the limit, then reports the size measured afresh. */
    method CheckAndCleanup(files: seq<CacheFile>) returns (info: CacheInfo, remaining: seq<CacheFile>)
      ensures TotalSize(files) <= maxSizeBytes ==> remaining == files
      ensures TotalSize(files) > maxSizeBytes ==>
        remaining == SweepFiles(SortBy(Listed(files), AtimeLe), TotalSize(files), targetSizeBytes).kept + Unlisted(files)
      ensures info.fileCount == |remaining| && info.sizeMb == TotalSize(remaining) as real / BytesPerMb as real
      ensures info.maxMb == maxSizeBytes as real / BytesPerMb as real
    {
      var total, count := GetCacheSize(files);
      remaining := files;
      if total > maxSizeBytes {
        var deletedSize, deletedCount;
        remaining, deletedSize, deletedCount := CleanupCache(files);
        total, count := GetCacheSize(remaining);
      }
      info := CacheInfo(total as real / (1024 * 1024) as real, count, maxSizeBytes as real / (1024 * 1024) as real);
    }
  }

  /** The deletion loop of `cleanup_cache` over the files in access order, with `total` bytes cached. */
  method SweepLoop(sorted: seq<CacheFile>, total: nat, target: int) returns (remaining: seq<CacheFile>, deletedSize: nat, deletedCount: nat)
    ensures var r := SweepFiles(sorted, total, target);
      remaining == r.kept && deletedSize == TotalSize(r.deleted) && deletedCount == |r.deleted|
  {
    ghost var all := SweepFiles(sorted, total, target);
    var deleted: seq<CacheFile> := [];
    var kept: seq<CacheFile> := [];
    deletedSize := 0;
    deletedCount := 0;
    assert sorted[0..] == sorted;
    var i := 0;
    while i < |sorted| && total - deletedSize > target
      invariant 0 <= i <= |sorted|
      invariant deletedSize == TotalSize(deleted) && deletedCount == |deleted|
      invariant SweepFrom(all, deleted, kept, sorted[i..], total - deletedSize, target)
    {
      var f := sorted[i];
      SweepFromStep(all, deleted, kept, sorted[i..], total - deletedSize, target);
      assert sorted[i..][1..] == sorted[i + 1..];
      if f.removable {
        TotalSizeSnoc(deleted, f);
        deleted := deleted + [f];
        deletedSize := deletedSize + f.size;
        deletedCount := deletedCount + 1;
      } else {
        kept := kept + [f];
      }
      i := i + 1;
    }
    SweepFromStop(all, deleted, kept, sorted[i..], total - deletedSize, target);
    remaining := kept + sorted[i..];
  }

  /**
   * After a cleanup the cache holds its old size less what was deleted; the
   * deleted files were listed and the oldest, and a file whose access time
   * cannot be read is never deleted. The target is reached unless no
   * removable listed file is left.
   */
  lemma CleanupShrinks(files: seq<CacheFile>, target: int)
    ensures var r := SweepFiles(SortBy(Listed(files), AtimeLe), TotalSize(files), target);
      var remaining := r.kept + Unlisted(files);
      TotalSize(remaining) == TotalSize(files) - TotalSize(r.deleted)
      && |remaining| == |files| - |r.deleted|
      && (TotalSize(remaining) <= target || forall f :: f in r.kept ==> !f.removable)
      && (forall d, k :: d in r.deleted && k in r.kept && k.removable ==> d.atime <= k.atime)
      && (forall d :: d in r.deleted ==> d in files && d.listed)
      && (forall f :: f in files && !f.listed ==> f in remaining)
  {
    var listed := Listed(files);
    var sorted := SortBy(listed, AtimeLe);
    var r := SweepFiles(sorted, TotalSize(files), target);
    SweepAccounts(sorted, TotalSize(files), target);
    TotalSizePermutation(sorted, listed);
    ListedSplit(files);
    TotalSizeAppend(r.kept, Unlisted(files));
    SweepReachesTarget(sorted, TotalSize(files), target);
    AtimeLeTotal();
    SortBySorted(listed, AtimeLe);
    SweepOldestFirst(sorted, TotalSize(files), target);
    SweepKeptFrom(sorted, TotalSize(files), target);
    forall d | d in r.deleted ensures d in files && d.listed {
      assert d in multiset(sorted);
      assert d in multiset(listed);
    }
  }

  /** The total does not depend on the order the files are listed in. */
  lemma {:induction false} TotalSizePermutation(a: seq<CacheFile>, b: seq<CacheFile>)
    requires multiset(a) == multiset(b)
    ensures TotalSize(a) == TotalSize(b)
    decreases |a|
  {
    if a != [] {
      var init, x := a[..|a| - 1], a[|a| - 1];
      assert x in multiset(b);
      var k :| 0 <= k < |b| && b[k] == x;
      var b' := b[..k] + b[k + 1..];
      MultisetSnoc(init, x);
      assert a == init + [x];
      MultisetRemoveAt(b, k);
      TotalSizePermutation(init, b');
      TotalSizeRemoveAt(b, k);
    }
  }

  lemma MultisetSnoc<T>(s: seq<T>, x: T)
    ensures multiset(s + [x]) - multiset{x} == multiset(s)
  {
    assert multiset(s + [x]) == multiset(s) + multiset{x};
  }

  lemma SplitAt<T>(s: seq<T>, k: nat)
    requires k < |s|
    ensures s == s[..k] + [s[k]] + s[k + 1..]
  {
  }

  lemma MultisetRemoveAt<T>(s: seq<T>, k: nat)
    requires k < |s|
    ensures multiset(s[..k] + s[k + 1..]) == multiset(s) - multiset{s[k]}
  {
    SplitAt(s, k);
    assert multiset(s) == multiset(s[..k]) + multiset{s[k]} + multiset(s[k + 1..]);
  }

  lemma TotalSizeRemoveAt(s: seq<CacheFile>, k: nat)
    requires k < |s|
    ensures TotalSize(s) == TotalSize(s[..k] + s[k + 1..]) + s[k].size
  {
    var p, q := s[..k], s[k + 1..];
    SplitAt(s, k);
    TotalSizeAppend(p + [s[k]], q);
    TotalSizeSnoc(p, s[k]);
    TotalSizeAppend(p, q);
  }
}
