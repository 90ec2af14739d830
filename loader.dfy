/** `insertIntoTableGoodData`, identical in both pipelines: every file of
    `Good_Raw` is read line by line, the header skipped, and each further
    line inserted into `Good_Raw_Data` and committed at once. The exception
    handler sits outside the loop over files, so the first failure ends the
    whole load; the file being read then moves to `Bad_Raw`, and the error
    is not re-raised.

    Whether SQLite accepts `INSERT INTO Good_Raw_Data values (<line>)` is
    given by `parse`: the values the line denotes, or `None` when it is not
    a valid value list. */
module Loader {
  import opened Common
  import opened Text
  import opened Files
  import opened Tables

  /** The row one INSERT adds, or `None` when it raises: `csv.reader` gives
      an empty line no field (`line[0]` raises `IndexError`), the table may
      be missing, and the values must fill every column. */
  function InsertRow(t: Option<Table>, line: string, parse: string -> Option<Row>): (r: Option<Row>)
    ensures r.Some? ==> line != [] && t.Some? && |r.value| == |t.value.columns| && parse(line) == r
  {
    if t.None? then None else Accepted(t.value.columns, line, parse)
  }

  /** The row an INSERT into a table with columns `cols` adds; it depends
      on the columns only, never on the rows already there. */
  function Accepted(cols: seq<Column>, line: string, parse: string -> Option<Row>): (r: Option<Row>)
    ensures r.Some? <==> line != [] && parse(line).Some? && |parse(line).value| == |cols|
    ensures r.Some? ==> parse(line) == r
  {
    if line == [] then None
    else
      match parse(line)
      case None => None
      case Some(row) => if |row| == |cols| then Some(row) else None
  }

  /** The rows are those of the table with `row` appended. */
  function Append(t: Table, row: Row): Table
  {
    Table(t.columns, t.rows + [row])
  }

  /** Inserting `lines` one by one: the table after the committed rows,
      and whether every line went in. */
  function LoadLines(t: Option<Table>, lines: seq<string>, parse: string -> Option<Row>): (Option<Table>, bool)
    decreases |lines|
  {
    if lines == [] then (t, true)
    else
      match InsertRow(t, lines[0], parse)
      case None => (t, false)
      case Some(row) => LoadLines(Some(Append(t.value, row)), lines[1..], parse)
  }

  /** One file: `next(f)` raises on an empty file; otherwise every line but
      the first is inserted. */
  function LoadFile(t: Option<Table>, content: Content, parse: string -> Option<Row>): (Option<Table>, bool)
  {
    var lines := TextLines(content);
    if lines == [] then (t, false)
    else LoadLines(t, lines[1..], parse)
  }

  /** The files in listing order, up to the first that fails: the table
      afterwards and the name of the failing file, if any. */
  function LoadFiles(t: Option<Table>, good: Dir, files: seq<string>, parse: string -> Option<Row>): (Option<Table>, Option<string>)
    requires forall k :: 0 <= k < |files| ==> files[k] in good
    decreases |files|
  {
    if files == [] then (t, None)
    else
      var (t1, ok) := LoadFile(t, good[files[0]], parse);
      if !ok then (t1, Some(files[0]))
      else LoadFiles(t1, good, files[1..], parse)
  }

  /** The whole of `insertIntoTableGoodData` for listing `listed` of
      `Good_Raw`: the table and folders afterwards and the outcome. The
      connection and `listdir` come before the `try`, so their errors
      propagate; so does a name clash when the failing file is moved into
      `Bad_Raw`. */
  function InsertSpec(t: Option<Table>, dirs: Tree, v: Variant, connect: Outcome, listed: seq<string>,
                      parse: string -> Option<Row>): (Option<Table>, Tree, Outcome)
    requires connect.Pass? && GoodDir(v) in dirs ==> IsListing(listed, dirs[GoodDir(v)])
    requires BadDir(v) in dirs
  {
    var good, bad := GoodDir(v), BadDir(v);
    if DataBaseConnection(v, connect).Fail? then (t, dirs, DataBaseConnection(v, connect))
    else if good !in dirs then (t, dirs, Fail(OsError(good)))
    else
      var (t1, failed) := LoadFiles(t, dirs[good], listed, parse);
      match failed
      case None => (t1, dirs, Pass)
      case Some(f) =>
        if f in dirs[bad] then (t1, dirs, Fail(OsError(bad + "/" + f)))
        else
          StagingAndArchiveDistinct(v, Timestamp("", ""));
          LoadFilesFailed(t, dirs[good], listed, parse);
          (t1, MoveFile(dirs, good, bad, f), Pass)
  }

  /** The line loop of one file; `ok` is false when an insert raised. */
  method InsertLines(db: Database, lines: seq<string>, parse: string -> Option<Row>) returns (ok: bool)
    modifies db
    ensures (db.table, ok) == LoadLines(old(db.table), lines, parse)
  {
    var j := 0;
    while j < |lines|
      invariant j <= |lines|
      invariant LoadLines(old(db.table), lines, parse) == LoadLines(db.table, lines[j..], parse)
    {
      assert lines[j..][1..] == lines[j + 1..];
      var row := InsertRow(db.table, lines[j], parse);
      if row.None? {
        return false;
      }
      db.table := Some(Append(db.table.value, row.value));   // conn.commit()
      j := j + 1;
    }
    return true;
  }

  /** The loop over the listed files; `failed` names the file being read
      when an insert raised. */
  method InsertFiles(db: Database, files: Dir, listed: seq<string>, parse: string -> Option<Row>)
    returns (failed: Option<string>)
    requires forall k :: 0 <= k < |listed| ==> listed[k] in files
    modifies db
    ensures (db.table, failed) == LoadFiles(old(db.table), files, listed, parse)
  {
    var i := 0;
    while i < |listed|
      invariant i <= |listed|
      invariant LoadFiles(old(db.table), files, listed, parse) == LoadFiles(db.table, files, listed[i..], parse)
    {
      assert listed[i..][1..] == listed[i + 1..];
      var name := listed[i];
      var lines := TextLines(files[name]);
      var ok := false;
      if lines != [] {   // next(f) skips the header
        ok := InsertLines(db, lines[1..], parse);
      }
      if !ok {
        return Some(name);
      }
      i := i + 1;
    }
    return None;
  }

  method InsertIntoTableGoodData(db: Database, fs: FileSystem, v: Variant, connect: Outcome,
                                 parse: string -> Option<Row>)
    returns (r: Outcome, listed: seq<string>)
    requires BadDir(v) in fs.dirs
    modifies db, fs
    ensures connect.Pass? && GoodDir(v) in old(fs.dirs) ==> IsListing(listed, old(fs.dirs)[GoodDir(v)])
    ensures (db.table, fs.dirs, r) == InsertSpec(old(db.table), old(fs.dirs), v, connect, listed, parse)
  {
    var good, bad := GoodDir(v), BadDir(v);
    StagingAndArchiveDistinct(v, Timestamp("", ""));
    listed := [];
    var c := DataBaseConnection(v, connect);
    if c.Fail? {
      r := c;
      return;
    }
    if good !in fs.dirs {
      r := Fail(OsError(good));
      return;
    }
    listed := ListDir(fs, good);
    var failed := InsertFiles(db, fs.dirs[good], listed, parse);
    if failed.Some? {
      // the handler: rollback (every row is committed already), then move
      var name := failed.value;
      if name in fs.dirs[bad] {
        r := Fail(OsError(bad + "/" + name));
        return;
      }
      LoadFilesFailed(old(db.table), fs.dirs[good], listed, parse);
      fs.dirs := MoveFile(fs.dirs, good, bad, name);
    }
    r := Pass;
  }

  /** The table invariant: every row fills every column. */
  predicate WellFormed(t: Option<Table>)
  {
    t.Some? ==> forall k :: 0 <= k < |t.value.rows| ==> |t.value.rows[k]| == |t.value.columns|
  }

  /** Inserting lines keeps the columns, keeps every committed row as a
      prefix, and keeps every row the width of the table. */
  lemma {:induction false} LoadLinesKeeps(t: Option<Table>, lines: seq<string>, parse: string -> Option<Row>)
    requires WellFormed(t)
    ensures var r := LoadLines(t, lines, parse).0;
      r.Some? == t.Some? && WellFormed(r)
      && (t.Some? ==> r.value.columns == t.value.columns
                      && |t.value.rows| <= |r.value.rows| <= |t.value.rows| + |lines|
                      && r.value.rows[..|t.value.rows|] == t.value.rows)
    decreases |lines|
  {
    if lines != [] {
      match InsertRow(t, lines[0], parse)
      case None =>
      case Some(row) =>
        var t1 := Some(Append(t.value, row));
        assert WellFormed(t1);
        LoadLinesKeeps(t1, lines[1..], parse);
        var r := LoadLines(t1, lines[1..], parse).0;
        assert r.value.rows[..|t1.value.rows|][..|t.value.rows|] == t.value.rows;
    }
  }

  /** The same for a whole load: the rows present before it stay. */
  lemma {:induction false} LoadFilesKeeps(t: Option<Table>, good: Dir, files: seq<string>, parse: string -> Option<Row>)
    requires forall k :: 0 <= k < |files| ==> files[k] in good
    requires WellFormed(t)
    ensures var r := LoadFiles(t, good, files, parse).0;
      r.Some? == t.Some? && WellFormed(r)
      && (t.Some? ==> r.value.columns == t.value.columns
                      && |r.value.rows| >= |t.value.rows|
                      && r.value.rows[..|t.value.rows|] == t.value.rows)
    decreases |files|
  {
    if files != [] {
      var lines := TextLines(good[files[0]]);
      if lines != [] {
        LoadLinesKeeps(t, lines[1..], parse);
      }
      var (t1, ok) := LoadFile(t, good[files[0]], parse);
      if ok {
        LoadFilesKeeps(t1, good, files[1..], parse);
        var r := LoadFiles(t1, good, files[1..], parse).0;
        if t.Some? {
          assert r.value.rows[..|t1.value.rows|][..|t.value.rows|] == t.value.rows;
        }
      }
    }
  }

  /** Position of the first of `lines` that a table with columns `cols`
      rejects, or `|lines|` when it accepts them all. */
  function FirstRejected(cols: seq<Column>, lines: seq<string>, parse: string -> Option<Row>): (j: nat)
    ensures j <= |lines|
    ensures forall m :: 0 <= m < j ==> Accepted(cols, lines[m], parse).Some?
    ensures j < |lines| ==> Accepted(cols, lines[j], parse).None?
  {
    if lines == [] then 0
    else if Accepted(cols, lines[0], parse).None? then 0
    else 1 + FirstRejected(cols, lines[1..], parse)
  }

  /** The values of the first `j` lines, in order. */
  function ParsedRows(lines: seq<string>, j: nat, parse: string -> Option<Row>): seq<Row>
    requires j <= |lines|
    requires forall m :: 0 <= m < j ==> parse(lines[m]).Some?
  {
    seq(j, m requires 0 <= m < j => parse(lines[m]).value)
  }

  lemma ParsedRowsCons(lines: seq<string>, j: nat, parse: string -> Option<Row>)
    requires 1 <= j <= |lines|
    requires forall m :: 0 <= m < j ==> parse(lines[m]).Some?
    ensures ParsedRows(lines, j, parse) == [parse(lines[0]).value] + ParsedRows(lines[1..], j - 1, parse)
  {
    var tail := lines[1..];
    assert forall m :: 0 <= m < j - 1 ==> tail[m] == lines[m + 1];
  }

  /** Inserting `lines` into table `t` appends, in order, the values of
      every line before the first one rejected, and nothing else; the load
      reports success exactly when no line is rejected. */
  lemma {:induction false} LoadLinesRows(t: Table, lines: seq<string>, parse: string -> Option<Row>)
    ensures var j := FirstRejected(t.columns, lines, parse);
      LoadLines(Some(t), lines, parse)
        == (Some(Table(t.columns, t.rows + ParsedRows(lines, j, parse))), j == |lines|)
    decreases |lines|
  {
    var j := FirstRejected(t.columns, lines, parse);
    if lines == [] || Accepted(t.columns, lines[0], parse).None? {
      assert ParsedRows(lines, j, parse) == [];
      assert t.rows + [] == t.rows;
    } else {
      var row := Accepted(t.columns, lines[0], parse).value;
      var t1 := Append(t, row);
      LoadLinesRows(t1, lines[1..], parse);
      ParsedRowsCons(lines, j, parse);
      assert t1.rows + ParsedRows(lines[1..], j - 1, parse) == t.rows + ParsedRows(lines, j, parse);
    }
  }

  /** The data lines of a file: all lines after the header. */
  function DataLines(content: Content): seq<string>
  {
    var lines := TextLines(content);
    if lines == [] then [] else lines[1..]
  }

  /** Whether a file loads in full into a table with columns `cols`: it has
      a header line and no data line is rejected. */
  predicate FileLoads(cols: seq<Column>, content: Content, parse: string -> Option<Row>)
  {
    TextLines(content) != []
    && FirstRejected(cols, DataLines(content), parse) == |DataLines(content)|
  }

  /** The rows a load of one file commits: its data lines up to the first
      rejected one. */
  function FileRows(cols: seq<Column>, content: Content, parse: string -> Option<Row>): seq<Row>
  {
    var d := DataLines(content);
    ParsedRows(d, FirstRejected(cols, d, parse), parse)
  }

  /** Loading one file appends the rows it commits; it succeeds exactly
      when it loads in full. */
  lemma LoadFileRows(t: Table, content: Content, parse: string -> Option<Row>)
    ensures LoadFile(Some(t), content, parse)
         == (Some(Table(t.columns, t.rows + FileRows(t.columns, content, parse))), FileLoads(t.columns, content, parse))
  {
    if TextLines(content) == [] {
      assert FileRows(t.columns, content, parse) == ParsedRows([], 0, parse) == [];
      assert t.rows + [] == t.rows;
    } else {
      LoadLinesRows(t, DataLines(content), parse);
    }
  }

  /** Position of the first of `files` that does not load in full, or
      `|files|`. */
  function FirstFailing(cols: seq<Column>, good: Dir, files: seq<string>, parse: string -> Option<Row>): (k: nat)
    requires forall m :: 0 <= m < |files| ==> files[m] in good
    ensures k <= |files|
    ensures forall m :: 0 <= m < k ==> FileLoads(cols, good[files[m]], parse)
    ensures k < |files| ==> !FileLoads(cols, good[files[k]], parse)
  {
    if files == [] then 0
    else if !FileLoads(cols, good[files[0]], parse) then 0
    else 1 + FirstFailing(cols, good, files[1..], parse)
  }

  /** The rows each of `files` commits, file after file. */
  function RowsOf(cols: seq<Column>, good: Dir, files: seq<string>, parse: string -> Option<Row>): seq<Row>
    requires forall m :: 0 <= m < |files| ==> files[m] in good
  {
    if files == [] then [] else FileRows(cols, good[files[0]], parse) + RowsOf(cols, good, files[1..], parse)
  }

  /** The rows a load of `files` commits: each file's rows, going on to the
      next file only after a file loaded in full. */
  function LoadedRows(cols: seq<Column>, good: Dir, files: seq<string>, parse: string -> Option<Row>): seq<Row>
    requires forall m :: 0 <= m < |files| ==> files[m] in good
  {
    if files == [] then []
    else if FileLoads(cols, good[files[0]], parse) then FileRows(cols, good[files[0]], parse) + LoadedRows(cols, good, files[1..], parse)
    else FileRows(cols, good[files[0]], parse)
  }

  /** The file a load of `files` stops at, if any. */
  function FailingFile(cols: seq<Column>, good: Dir, files: seq<string>, parse: string -> Option<Row>): Option<string>
    requires forall m :: 0 <= m < |files| ==> files[m] in good
  {
    if files == [] then None
    else if FileLoads(cols, good[files[0]], parse) then FailingFile(cols, good, files[1..], parse)
    else Some(files[0])
  }

  /** A whole load into table `t`: the rows afterwards are the old rows,
      then the rows of every file loaded in full, then those the failing
      file committed before its first rejected line (`LoadedRows`); every
      insert was committed at once, so a failure takes none of them back.
      The load stops at `FailingFile`. */
  lemma {:induction false} LoadFilesRows(t: Table, good: Dir, files: seq<string>, parse: string -> Option<Row>)
    requires forall m :: 0 <= m < |files| ==> files[m] in good
    ensures LoadFiles(Some(t), good, files, parse)
         == (Some(Table(t.columns, t.rows + LoadedRows(t.columns, good, files, parse))), FailingFile(t.columns, good, files, parse))
    decreases |files|
  {
    if files == [] {
      assert t.rows + [] == t.rows;
    } else {
      var cols, f := t.columns, good[files[0]];
      LoadFilesStep(t, good, files, parse);
      if FileLoads(cols, f, parse) {
        var t1 := Table(cols, t.rows + FileRows(cols, f, parse));
        LoadFilesRows(t1, good, files[1..], parse);
        var rest := LoadedRows(cols, good, files[1..], parse);
        assert t1.rows + rest == t.rows + (FileRows(cols, f, parse) + rest);
      }
    }
  }

  /** The rows committed are those of the files up to and including the
      first that does not load in full. */
  lemma {:induction false} LoadedRowsPrefix(cols: seq<Column>, good: Dir, files: seq<string>, parse: string -> Option<Row>)
    requires forall m :: 0 <= m < |files| ==> files[m] in good
    ensures var k := FirstFailing(cols, good, files, parse);
      LoadedRows(cols, good, files, parse) == RowsOf(cols, good, files[..if k < |files| then k + 1 else |files|], parse)
    decreases |files|
  {
    if files != [] {
      var f := good[files[0]];
      if FileLoads(cols, f, parse) {
        var k := FirstFailing(cols, good, files, parse);
        var upto := if k < |files| then k + 1 else |files|;
        var k1 := FirstFailing(cols, good, files[1..], parse);
        FirstFailingCons(cols, good, files, parse);
        assert upto - 1 == if k1 < |files[1..]| then k1 + 1 else |files[1..]|;
        LoadedRowsPrefix(cols, good, files[1..], parse);
        RowsOfCons(cols, good, files, upto, parse);
        assert LoadedRows(cols, good, files, parse) == FileRows(cols, f, parse) + LoadedRows(cols, good, files[1..], parse);
      } else {
        LoadedRowsHead(cols, good, files, parse);
      }
    }
  }

  /** A first file that does not load in full contributes the only rows. */
  lemma LoadedRowsHead(cols: seq<Column>, good: Dir, files: seq<string>, parse: string -> Option<Row>)
    requires forall m :: 0 <= m < |files| ==> files[m] in good
    requires files != [] && !FileLoads(cols, good[files[0]], parse)
    ensures LoadedRows(cols, good, files, parse) == RowsOf(cols, good, files[..1], parse)
    ensures FirstFailing(cols, good, files, parse) == 0
  {
    var f := good[files[0]];
    RowsOfCons(cols, good, files, 1, parse);
    assert files[1..][..0] == [];
    assert FileRows(cols, f, parse) + [] == FileRows(cols, f, parse);
  }

  /** The load stops at the first file that does not load in full. */
  lemma {:induction false} FailingFileFirst(cols: seq<Column>, good: Dir, files: seq<string>, parse: string -> Option<Row>)
    requires forall m :: 0 <= m < |files| ==> files[m] in good
    ensures var k := FirstFailing(cols, good, files, parse);
      FailingFile(cols, good, files, parse) == if k < |files| then Some(files[k]) else None
    decreases |files|
  {
    if files != [] && FileLoads(cols, good[files[0]], parse) {
      FirstFailingCons(cols, good, files, parse);
      FailingFileFirst(cols, good, files[1..], parse);
    }
  }

  /** One file of a load: its rows are appended, and the load goes on to
      the next file exactly when this one loaded in full. */
  lemma LoadFilesStep(t: Table, good: Dir, files: seq<string>, parse: string -> Option<Row>)
    requires forall m :: 0 <= m < |files| ==> files[m] in good
    requires files != []
    ensures var f := good[files[0]];
      var t1 := Table(t.columns, t.rows + FileRows(t.columns, f, parse));
      LoadFiles(Some(t), good, files, parse)
        == if FileLoads(t.columns, f, parse) then LoadFiles(Some(t1), good, files[1..], parse)
           else (Some(t1), Some(files[0]))
  {
    LoadFileRows(t, good[files[0]], parse);
  }

  /** After a file loaded in full, the first failing file is found among
      the rest. */
  lemma FirstFailingCons(cols: seq<Column>, good: Dir, files: seq<string>, parse: string -> Option<Row>)
    requires forall m :: 0 <= m < |files| ==> files[m] in good
    requires files != [] && FileLoads(cols, good[files[0]], parse)
    ensures FirstFailing(cols, good, files, parse) == 1 + FirstFailing(cols, good, files[1..], parse)
  {
  }

  /** The rows of a non-empty prefix of `files`: the first file's, then the
      rest's. */
  lemma RowsOfCons(cols: seq<Column>, good: Dir, files: seq<string>, upto: nat, parse: string -> Option<Row>)
    requires forall m :: 0 <= m < |files| ==> files[m] in good
    requires 1 <= upto <= |files|
    ensures RowsOf(cols, good, files[..upto], parse)
         == FileRows(cols, good[files[0]], parse) + RowsOf(cols, good, files[1..][..upto - 1], parse)
  {
    assert files[..upto][0] == files[0] && files[..upto][1..] == files[1..][..upto - 1];
  }

  /** A failing load names a listed file; all the files before it were
      loaded in full, and it is the first file whose load fails. */
  lemma {:induction false} LoadFilesFailed(t: Option<Table>, good: Dir, files: seq<string>, parse: string -> Option<Row>)
    requires forall k :: 0 <= k < |files| ==> files[k] in good
    ensures LoadFiles(t, good, files, parse).1.Some? ==>
      exists k :: 0 <= k < |files| && files[k] == LoadFiles(t, good, files, parse).1.value
               && LoadFiles(t, good, files[..k], parse).1.None?
               && !LoadFile(LoadFiles(t, good, files[..k], parse).0, good[files[k]], parse).1
    decreases |files|
  {
    if files != [] {
      var (t1, ok) := LoadFile(t, good[files[0]], parse);
      if !ok {
        assert files[..0] == [];
      } else {
        LoadFilesFailed(t1, good, files[1..], parse);
        if LoadFiles(t, good, files, parse).1.Some? {
          var k :| 0 <= k < |files[1..]| && files[1..][k] == LoadFiles(t1, good, files[1..], parse).1.value
                 && LoadFiles(t1, good, files[1..][..k], parse).1.None?
                 && !LoadFile(LoadFiles(t1, good, files[1..][..k], parse).0, good[files[1..][k]], parse).1;
          assert files[..k + 1][0] == files[0] && files[..k + 1][1..] == files[1..][..k];
          assert files[k + 1] == files[1..][k];
        }
      }
    }
  }

  /** Once a file fails, the files listed after it are never read: the load
      of a longer listing ends the same way. */
  lemma {:induction false} LoadFilesStops(t: Option<Table>, good: Dir, files: seq<string>, later: seq<string>,
                                          parse: string -> Option<Row>)
    requires forall k :: 0 <= k < |files| ==> files[k] in good
    requires forall k :: 0 <= k < |later| ==> later[k] in good
    ensures var (t1, failed) := LoadFiles(t, good, files, parse);
      LoadFiles(t, good, files + later, parse)
        == if failed.Some? then (t1, failed) else LoadFiles(t1, good, later, parse)
    decreases |files|
  {
    if files != [] {
      assert (files + later)[0] == files[0] && (files + later)[1..] == files[1..] + later;
      var (t1, ok) := LoadFile(t, good[files[0]], parse);
      if ok {
        LoadFilesStops(t1, good, files[1..], later, parse);
      }
    } else {
      assert files + later == later;
    }
  }

  /** An empty file fails at once; a file with only a header line, ended
      by a line break or not, adds nothing and does not fail. */
  lemma EmptyAndHeaderOnly(t: Option<Table>, header: string, parse: string -> Option<Row>)
    requires header != [] && NoLineBreak(header)
    ensures LoadFile(t, "", parse) == (t, false)
    ensures LoadFile(t, header, parse) == (t, true)
    ensures LoadFile(t, header + "\r\n", parse) == (t, true)
  {
    assert FirstBreak(header) == |header|;
    FirstBreakAfter(header, "\r\n");
    var s := header + "\r\n";
    assert s[..|header|] == header && s[|header| + 2..] == [];
  }

  /** Without a table, every data line fails. */
  lemma NoTableNoRows(lines: seq<string>, parse: string -> Option<Row>)
    requires lines != []
    ensures LoadLines(None, lines, parse) == (None, false)
  {
  }

  /** The load as a whole: on success the folders are unchanged; on a
      swallowed failure only the failing file has moved, from `Good_Raw`
      to `Bad_Raw` with its content; the outcome is never the load error. */
  lemma InsertMovesOnlyFailing(t: Option<Table>, dirs: Tree, v: Variant, connect: Outcome, listed: seq<string>,
                               parse: string -> Option<Row>)
    requires GoodDir(v) in dirs && IsListing(listed, dirs[GoodDir(v)])
    requires BadDir(v) in dirs
    requires connect.Pass?
    ensures var (t1, dirs1, o) := InsertSpec(t, dirs, v, connect, listed, parse);
      var good, bad := GoodDir(v), BadDir(v);
      var failed := LoadFiles(t, dirs[good], listed, parse).1;
      t1 == LoadFiles(t, dirs[good], listed, parse).0
      && (failed.None? ==> o == Pass && dirs1 == dirs)
      && (failed.Some? && failed.value !in dirs[bad] ==>
            o == Pass && failed.value in dirs[good]
            && dirs1 == dirs[good := dirs[good] - {failed.value}][bad := dirs[bad][failed.value := dirs[good][failed.value]]])
      && (failed.Some? && failed.value in dirs[bad] ==> o == Fail(OsError(bad + "/" + failed.value)) && dirs1 == dirs)
  {
    var good := GoodDir(v);
    LoadFilesFailed(t, dirs[good], listed, parse);
    var failed := LoadFiles(t, dirs[good], listed, parse).1;
    if failed.Some? {
      var k :| 0 <= k < |listed| && listed[k] == failed.value;
      assert failed.value in dirs[good];
    }
  }
}
