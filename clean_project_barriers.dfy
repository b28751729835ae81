/**
 * The maintenance script that strips subcategory rows (first column ending
 * in a digit) from a project's barrier table, keeping a backup of the table
 * as it was.
 */
module CleanProjectBarriers {
  import opened Wrappers
  import opened PyNum
  import opened PyStr

  /** A table row: the first column's cell, then the others as read. */
  datatype Row = Row(first: Option<string>, rest: seq<string>)

  /** The mask of line 26: the first column's text ends in a letter. */
  predicate Kept(row: Row)
  {
    var t := CellText(row.first);
    t != [] && IsAlpha(t[|t| - 1])
  }

  /** `df[mask]`: the kept rows in their original order. */
  function CleanRows(rows: seq<Row>): (r: seq<Row>)
    ensures |r| <= |rows|
    ensures forall k :: 0 <= k < |r| ==> Kept(r[k])
  {
    if rows == [] then []
    else
      var init := CleanRows(rows[..|rows| - 1]);
      if Kept(rows[|rows| - 1]) then init + [rows[|rows| - 1]] else init
  }

  /** The rows the mask drops, as listed when something is removed. */
  function RemovedRows(rows: seq<Row>): (r: seq<Row>)
    ensures forall k :: 0 <= k < |r| ==> !Kept(r[k])
  {
    if rows == [] then []
    else
      var init := RemovedRows(rows[..|rows| - 1]);
      if Kept(rows[|rows| - 1]) then init else init + [rows[|rows| - 1]]
  }

  /** Exactly the rows ending in a letter remain. */
  lemma {:induction false} CleanRowsMembers(rows: seq<Row>, x: Row)
    ensures x in CleanRows(rows) <==> x in rows && Kept(x)
  {
    if rows != [] {
      var init := rows[..|rows| - 1];
      CleanRowsMembers(init, x);
      assert rows == init + [rows[|rows| - 1]];
    }
  }

  /** Every row is either kept or removed: removed = total - kept. */
  lemma {:induction false} CleanRowsCount(rows: seq<Row>)
    ensures |CleanRows(rows)| + |RemovedRows(rows)| == |rows|
  {
    if rows != [] {
      CleanRowsCount(rows[..|rows| - 1]);
    }
  }

  /** Cleaning works row by row: it distributes over concatenation, so the order is kept. */
  lemma {:induction false} CleanRowsAppend(xs: seq<Row>, ys: seq<Row>)
    ensures CleanRows(xs + ys) == CleanRows(xs) + CleanRows(ys)
    decreases |ys|
  {
    if ys == [] {
      assert xs + ys == xs;
    } else {
      var ys' := ys[..|ys| - 1];
      assert (xs + ys)[..|xs + ys| - 1] == xs + ys';
      assert (xs + ys)[|xs + ys| - 1] == ys[|ys| - 1];
      CleanRowsAppend(xs, ys');
    }
  }

  /** A table with only barrier rows is left as it is. */
  lemma {:induction false} CleanRowsAllKept(rows: seq<Row>)
    requires forall k :: 0 <= k < |rows| ==> Kept(rows[k])
    ensures CleanRows(rows) == rows
  {
    if rows != [] {
      CleanRowsAllKept(rows[..|rows| - 1]);
      assert rows == rows[..|rows| - 1] + [rows[|rows| - 1]];
    }
  }

  /** Running the script on its own output removes nothing more. */
  lemma CleanRowsIdempotent(rows: seq<Row>)
    ensures CleanRows(CleanRows(rows)) == CleanRows(rows)
  {
    CleanRowsAllKept(CleanRows(rows));
  }

  /** An empty first cell prints as "nan" and so survives the clean. */
  lemma EmptyFirstCellKept(rest: seq<string>)
    ensures Kept(Row(None, rest))
  {
  }

  /** Line 35: every ".csv" in the path becomes "_backup.csv". */
  function BackupPath(path: string): string
  {
    ReplaceAll(path, ".csv", "_backup.csv")
  }

  /** The usual case: a path whose only dot begins ".csv" gets its backup beside it. */
  lemma BackupPathOfStem(stem: string)
    requires '.' !in stem
    ensures BackupPath(stem + ".csv") == stem + "_backup.csv"
    ensures BackupPath(stem + ".csv") != stem + ".csv"
  {
    ReplaceAllSuffix(stem, ".csv", "_backup.csv");
    assert (stem + "_backup.csv")[|stem|] == '_' && (stem + ".csv")[|stem|] == '.';
  }

  /** What the script did: its exit code and the files it wrote, in order. */
  datatype Outcome = Outcome(exitCode: int, writes: seq<(string, seq<Row>)>)

  /**
   * The script as written. `argv[0]` is the script's own name; `table` is
   * the table read from `argv[1]`, or None when reading it failed.
   */
  function Run(argv: seq<string>, table: Option<seq<Row>>): (o: Outcome)
    ensures |argv| < 2 ==> o == Outcome(1, [])
    ensures |argv| >= 2 && table.None? ==> o == Outcome(1, [])
    ensures |argv| >= 2 && table.Some? ==>
      (o.exitCode == 0 && |o.writes| == 2
       && o.writes[0] == (BackupPath(argv[1]), table.value)
       && o.writes[1] == (argv[1], CleanRows(table.value)))
  {
    if |argv| < 2 then Outcome(1, [])
    else
      match table
      case None => Outcome(1, [])
      case Some(rows) =>
        Outcome(0, [(BackupPath(argv[1]), rows), (argv[1], CleanRows(rows))])
  }

  /** What a path holds once all the writes are done: the last write to it. */
  function FinalContents(writes: seq<(string, seq<Row>)>, path: string): (r: Option<seq<Row>>)
    ensures r.Some? <==> exists k :: 0 <= k < |writes| && writes[k].0 == path
  {
    if writes == [] then None
    else if writes[|writes| - 1].0 == path then Some(writes[|writes| - 1].1)
    else FinalContents(writes[..|writes| - 1], path)
  }

  /** With a ".csv" path the backup keeps the full table and the file holds the clean one. */
  lemma RunKeepsBackup(stem: string, rows: seq<Row>)
    requires '.' !in stem
    ensures var o := Run(["clean_project_barriers.py", stem + ".csv"], Some(rows));
      && FinalContents(o.writes, stem + "_backup.csv") == Some(rows)
      && FinalContents(o.writes, stem + ".csv") == Some(CleanRows(rows))
  {
    BackupPathOfStem(stem);
  }

  /** A table with one subcategory row and one barrier row. */
  function MixedTable(): seq<Row>
  {
    [Row(Some("GB01"), ["Subcategoria"]), Row(Some("GB01a"), ["Barrera"])]
  }

  /**
   * A path whose extension is not lower-case ".csv" has no "_backup" in its
   * backup path: the backup is written to the file itself and then
   * overwritten by the clean table, so the subcategory rows are lost.
   */
  lemma BackupLostAsWritten(stem: string)
    requires '.' !in stem
    ensures BackupPath(stem + ".CSV") == stem + ".CSV"
    ensures var o := Run(["clean_project_barriers.py", stem + ".CSV"], Some(MixedTable()));
      FinalContents(o.writes, BackupPath(stem + ".CSV")) != Some(MixedTable())
  {
    ReplaceAllPrefix(stem, ".CSV", ".csv", "_backup.csv");
    assert ReplaceAll(".CSV", ".csv", "_backup.csv") == ".CSV" by {
      assert ".CSV"[..4] == ".CSV" && ".CSV"[1] != ".csv"[1];
      assert ".CSV"[1..] == "CSV";
    }
    var rows := MixedTable();
    assert !Kept(rows[0]) && Kept(rows[1]);
    assert rows == [] + [rows[0]] + [rows[1]];
    assert CleanRows([rows[0]]) == [] by {
      assert [rows[0]][..0] == [];
    }
    assert rows[..1] == [rows[0]];
    assert |CleanRows(rows)| == 1;
  }

  /** A backup path that never coincides with the file being cleaned. */
  function SafeBackupPath(path: string): (b: string)
    ensures b != path
    ensures ReplaceAll(path, ".csv", "_backup.csv") != path ==> b == ReplaceAll(path, ".csv", "_backup.csv")
  {
    var r := ReplaceAll(path, ".csv", "_backup.csv");
    if r != path then r else path + "_backup"
  }

  /** The script with the backup written to `SafeBackupPath`. */
  function RunSafe(argv: seq<string>, table: Option<seq<Row>>): (o: Outcome)
    ensures |argv| < 2 || table.None? ==> o == Outcome(1, [])
  {
    if |argv| < 2 then Outcome(1, [])
    else
      match table
      case None => Outcome(1, [])
      case Some(rows) =>
        Outcome(0, [(SafeBackupPath(argv[1]), rows), (argv[1], CleanRows(rows))])
  }

  /** Whatever the path, the backup ends up holding the table as read and the file the clean table. */
  lemma RunSafeKeepsBackup(argv: seq<string>, rows: seq<Row>)
    requires |argv| >= 2
    ensures var o := RunSafe(argv, Some(rows));
      && o.exitCode == 0
      && FinalContents(o.writes, SafeBackupPath(argv[1])) == Some(rows)
      && FinalContents(o.writes, argv[1]) == Some(CleanRows(rows))
      && SafeBackupPath(argv[1]) != argv[1]
  {
    var o := RunSafe(argv, Some(rows));
    assert o.writes[..1] == [(SafeBackupPath(argv[1]), rows)];
  }

  /** Same path, same backup as the script when its path contains ".csv". */
  lemma SafeBackupPathAgrees(stem: string)
    requires '.' !in stem
    ensures SafeBackupPath(stem + ".csv") == BackupPath(stem + ".csv")
  {
    BackupPathOfStem(stem);
  }
}
