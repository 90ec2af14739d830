/** `selectingDatafromtableintocsv` of both variants: the whole table
    `Good_Raw_Data` written as `<export folder>/InputFile.csv`, the column
    names first, then one record per row. */
module Exporter {
  import opened Common
  import opened Text
  import opened Files
  import opened Tables
  import opened Csv

  /** The header the export writes: the names `cursor.description` reports,
      in table order. */
  function ColumnNames(cols: seq<Column>): (names: seq<string>)
    ensures |names| == |cols|
    ensures forall k :: 0 <= k < |cols| ==> names[k] == cols[k].name
  {
    seq(|cols|, k requires 0 <= k < |cols| => cols[k].name)
  }

  /** The file's text for a table. */
  function ExportText(table: Table): string
  {
    Document(ColumnNames(table.columns), table.rows)
  }

  /** What the export does to the tree and what it raises. A failed
      connection leaves `conn` unbound and the `finally` clause's
      `conn.close()` raises `UnboundLocalError`; a missing table makes the
      SELECT fail; otherwise the folder is created when absent and the file
      is written, replacing any earlier export. */
  function ExportSpec(t: Option<Table>, dirs: Tree, v: Variant, connect: Outcome): (Tree, Outcome)
  {
    if DataBaseConnection(v, connect).Fail? then (dirs, Fail(UnboundLocalError("conn")))
    else if t.None? then (dirs, Fail(DatabaseError("no such table: Good_Raw_Data")))
    else
      var d := EnsureDir(dirs, ExportDir(v));
      (d[ExportDir(v) := d[ExportDir(v)][ExportFileName := ExportText(t.value)]], Pass)
  }

  method SelectingDatafromtableintocsv(db: Database, fs: FileSystem, v: Variant, connect: Outcome) returns (r: Outcome)
    modifies fs
    ensures (fs.dirs, r) == ExportSpec(db.table, old(fs.dirs), v, connect)
  {
    var c := DataBaseConnection(v, connect);
    if c.Fail? {
      r := Fail(UnboundLocalError("conn"));
      return;
    }
    if db.table.None? {
      r := Fail(DatabaseError("no such table: Good_Raw_Data"));
      return;
    }
    var results := db.table.value.rows;
    var headers := ColumnNames(db.table.value.columns);
    var dir := ExportDir(v);
    if dir !in fs.dirs {
      fs.dirs := fs.dirs[dir := map[]];
    }
    fs.dirs := fs.dirs[dir := fs.dirs[dir][ExportFileName := Document(headers, results)]];
    r := Pass;
  }

  /** No field of the table holds a line break. */
  predicate PlainTable(table: Table)
  {
    NoLineBreaks(ColumnNames(table.columns))
    && forall k :: 0 <= k < |table.rows| ==> NoLineBreaks(table.rows[k])
  }

  /** The export succeeds exactly when the connection opens and the table
      exists; it then leaves a file that, read back line by line, holds
      the column names and then every row of the table, in order. */
  lemma ExportReadsBack(t: Option<Table>, dirs: Tree, v: Variant, connect: Outcome)
    requires t.Some? ==> PlainTable(t.value)
    ensures var (d, o) := ExportSpec(t, dirs, v, connect);
      (o == Pass <==> connect.Pass? && t.Some?)
      && (o == Pass ==>
            ExportDir(v) in d && ExportFileName in d[ExportDir(v)]
            && var lines := TextLines(d[ExportDir(v)][ExportFileName]);
               |lines| == 1 + |t.value.rows|
               && ParseRecord(lines[0]) == Some(ColumnNames(t.value.columns))
               && forall k :: 0 <= k < |t.value.rows| ==> ParseRecord(lines[k + 1]) == Some(t.value.rows[k]))
  {
    if connect.Pass? && t.Some? {
      DocumentReadsBack(ColumnNames(t.value.columns), t.value.rows);
    }
  }

  /** The export touches nothing but its own file: every other folder, and
      every other file of the export folder, keeps its content. */
  lemma ExportKeepsOthers(t: Option<Table>, dirs: Tree, v: Variant, connect: Outcome)
    ensures var d := ExportSpec(t, dirs, v, connect).0;
      (forall p :: p != ExportDir(v) ==> (p in d <==> p in dirs))
      && (forall p :: p in dirs && p != ExportDir(v) ==> d[p] == dirs[p])
      && (ExportDir(v) in dirs ==>
            forall x :: x in dirs[ExportDir(v)] && x != ExportFileName ==>
              x in d[ExportDir(v)] && d[ExportDir(v)][x] == dirs[ExportDir(v)][x])
  {
  }

  /** A failed export changes nothing; the error tells which step failed. */
  lemma ExportFailure(t: Option<Table>, dirs: Tree, v: Variant, connect: Outcome)
    requires ExportSpec(t, dirs, v, connect).1.Fail?
    ensures ExportSpec(t, dirs, v, connect).0 == dirs
    ensures connect.Fail? ==> ExportSpec(t, dirs, v, connect).1 == Fail(UnboundLocalError("conn"))
    ensures connect.Pass? ==> t.None? && ExportSpec(t, dirs, v, connect).1 == Fail(DatabaseError("no such table: Good_Raw_Data"))
  {
  }

  /** Exporting again overwrites the earlier export: twice is once. */
  lemma ExportTwice(t: Option<Table>, dirs: Tree, v: Variant, connect: Outcome)
    ensures var d := ExportSpec(t, dirs, v, connect).0;
      ExportSpec(t, d, v, connect).0 == d
  {
    var d := ExportSpec(t, dirs, v, connect).0;
    if connect.Pass? && t.Some? {
      var p := ExportDir(v);
      assert d[p][ExportFileName := ExportText(t.value)] == d[p];
      assert d[p := d[p]] == d;
    }
  }
}
