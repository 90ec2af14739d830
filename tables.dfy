/** The SQLite table `Good_Raw_Data` that both pipelines load the staged
    files into (DataTypeValidation_Insertion_Prediction/
    DataTypeValidationPrediction.py and DataTypeValidation_Insertion_Training/
    DataTypeValidation.py): opening the database and building the table. */
module Tables {
  import opened Common

  /** A column as declared in the schema's `ColName` object: its name and
      its SQL type, copied verbatim into the DDL. */
  datatype Column = Column(name: string, sqlType: string)

  /** The values of one row, as text. */
  type Row = seq<string>

  datatype Table = Table(columns: seq<Column>, rows: seq<Row>)

  /** The database file: the table `Good_Raw_Data`, when it exists. */
  class Database {
    var table: Option<Table>

    constructor (initial: Option<Table>)
      ensures table == initial
    {
      table := initial;
    }
  }

  const ConnectionPrefix: string := "Error while connecting to database: "

  /** `dataBaseConnection`: `connect` is what `sqlite3.connect` did. The
      training variant re-raises a `ConnectionError` with a prefixed
      message; any other failure, and every failure in the prediction
      variant, propagates as it was. */
  function DataBaseConnection(v: Variant, connect: Outcome): (r: Outcome)
    ensures r.Pass? <==> connect.Pass?
    ensures v == Prediction ==> r == connect
    ensures connect.Fail? && !connect.error.ConnectionError? ==> r == connect
    ensures v == Training && connect.Fail? && connect.error.ConnectionError? ==>
      r.error.ConnectionError? && |r.error.message| >= |ConnectionPrefix|
      && r.error.message[..|ConnectionPrefix|] == ConnectionPrefix
      && r.error.message[|ConnectionPrefix|..] == connect.error.message
  {
    match connect
    case Pass => Pass
    case Fail(e) =>
      if v == Training && e.ConnectionError? then Fail(ConnectionError(ConnectionPrefix + e.message))
      else connect
  }

  /** SQLite compares identifiers ignoring ASCII case. */
  function LowerChar(c: char): char
  {
    if 'A' <= c <= 'Z' then (c as int + 32) as char else c
  }

  function Lower(s: string): string
  {
    seq(|s|, i requires 0 <= i < |s| => LowerChar(s[i]))
  }

  predicate SameName(a: string, b: string)
  {
    Lower(a) == Lower(b)
  }

  predicate HasColumn(cols: seq<Column>, name: string)
  {
    exists k :: 0 <= k < |cols| && SameName(cols[k].name, name)
  }

  predicate DistinctNames(cols: seq<Column>)
  {
    forall i, j :: 0 <= i < j < |cols| ==> !SameName(cols[i].name, cols[j].name)
  }

  /** One turn of the column loop: `ALTER TABLE ... ADD COLUMN`, and when
      that fails, `CREATE TABLE` with the column. Without a table the
      ALTER fails and the CREATE makes the table; with a table the ALTER
      fails only on a clashing name, and then the CREATE fails too. */
  function AddColumn(built: Option<seq<Column>>, col: Column): (r: Result<seq<Column>>)
    ensures r.Ok? ==> r.value == (if built.None? then [] else built.value) + [col]
    ensures r.Err? <==> built.Some? && HasColumn(built.value, col.name)
  {
    match built
    case None => Ok([col])
    case Some(cs) =>
      if HasColumn(cs, col.name) then Err(DatabaseError("table Good_Raw_Data already exists"))
      else Ok(cs + [col])
  }

  /** The column loop from state `built` over the columns `todo`; each
      statement is committed as it runs, so a failure keeps the columns
      added before it. */
  function BuildColumns(built: Option<seq<Column>>, todo: seq<Column>): (Option<seq<Column>>, Outcome)
    decreases |todo|
  {
    if todo == [] then (built, Pass)
    else
      match AddColumn(built, todo[0])
      case Err(e) => (built, Fail(e))
      case Ok(cs) => BuildColumns(Some(cs), todo[1..])
  }

  /** The table a column loop state stands for; it has no rows, since the
      loop only runs on a table it created itself. */
  function AsTable(built: Option<seq<Column>>): Option<Table>
  {
    match built
    case None => None
    case Some(cs) => Some(Table(cs, []))
  }

  /** `createTableDb`. A failed connection leaves `conn` unbound, so the
      handler's `conn.close()` raises `UnboundLocalError`. Prediction drops
      the table and builds it again; training keeps an existing table. */
  function CreateTableSpec(t: Option<Table>, v: Variant, connect: Outcome, columns: seq<Column>): (Option<Table>, Outcome)
  {
    if DataBaseConnection(v, connect).Fail? then (t, Fail(UnboundLocalError("conn")))
    else if v == Training && t.Some? then (t, Pass)
    else
      var (built, o) := BuildColumns(None, columns);
      (AsTable(built), o)
  }

  method CreateTableDb(db: Database, v: Variant, connect: Outcome, columns: seq<Column>) returns (r: Outcome)
    modifies db
    ensures (db.table, r) == CreateTableSpec(old(db.table), v, connect, columns)
  {
    var c := DataBaseConnection(v, connect);
    if c.Fail? {
      r := Fail(UnboundLocalError("conn"));
      return;
    }
    if v == Prediction {
      db.table := None;   // DROP TABLE IF EXISTS
    } else if db.table.Some? {
      r := Pass;
      return;
    }
    var built: Option<seq<Column>> := None;
    var i := 0;
    while i < |columns|
      invariant i <= |columns|
      invariant BuildColumns(None, columns) == BuildColumns(built, columns[i..])
      invariant db.table == AsTable(built)
    {
      assert columns[i..][1..] == columns[i + 1..];
      var added := AddColumn(built, columns[i]);
      if added.Err? {
        r := Fail(added.error);
        return;
      }
      built := Some(added.value);
      db.table := AsTable(built);
      i := i + 1;
    }
    r := Pass;
  }

  lemma DistinctNamesExtend(cs: seq<Column>, col: Column)
    requires DistinctNames(cs) && !HasColumn(cs, col.name)
    ensures DistinctNames(cs + [col])
  {
    var s := cs + [col];
    forall i, j | 0 <= i < j < |s|
      ensures !SameName(s[i].name, s[j].name)
    {
      if j == |cs| {
        assert !SameName(cs[i].name, col.name);
      }
    }
  }

  /** The column loop succeeds exactly when no two names clash, the ones
      already in the table included, and then the table has every column
      in order, with its type. */
  lemma {:induction false} BuildColumnsSucceeds(cs: seq<Column>, todo: seq<Column>)
    requires DistinctNames(cs)
    ensures BuildColumns(Some(cs), todo).1 == Pass <==> DistinctNames(cs + todo)
    ensures BuildColumns(Some(cs), todo).1 == Pass ==> BuildColumns(Some(cs), todo).0 == Some(cs + todo)
    decreases |todo|
  {
    if todo != [] {
      var col := todo[0];
      assert cs + todo == (cs + [col]) + todo[1..];
      if HasColumn(cs, col.name) {
        var k :| 0 <= k < |cs| && SameName(cs[k].name, col.name);
        assert (cs + todo)[k] == cs[k] && (cs + todo)[|cs|] == col;
      } else {
        DistinctNamesExtend(cs, col);
        BuildColumnsSucceeds(cs + [col], todo[1..]);
      }
    } else {
      assert cs + todo == cs;
    }
  }

  function Start(built: Option<seq<Column>>): seq<Column>
  {
    if built.None? then [] else built.value
  }

  /** The loop from `built` over `todo` ended with the columns before
      `todo[k]`, whose name clashes with one of them. */
  predicate StoppedAt(built: Option<seq<Column>>, todo: seq<Column>, k: int)
  {
    0 <= k < |todo|
    && BuildColumns(built, todo).0 == Some(Start(built) + todo[..k])
    && HasColumn(Start(built) + todo[..k], todo[k].name)
  }

  /** On a clash the loop stops with the `DatabaseError` of the failed
      CREATE, keeping the columns before the clashing one. */
  lemma {:induction false} BuildColumnsClash(built: Option<seq<Column>>, todo: seq<Column>)
    requires BuildColumns(built, todo).1.Fail?
    ensures BuildColumns(built, todo).1 == Fail(DatabaseError("table Good_Raw_Data already exists"))
    ensures exists k :: StoppedAt(built, todo, k)
    decreases |todo|
  {
    var col := todo[0];
    if AddColumn(built, col).Err? {
      StoppedAtHead(built, todo);
    } else {
      var cs := AddColumn(built, col).value;
      assert BuildColumns(built, todo) == BuildColumns(Some(cs), todo[1..]);
      BuildColumnsClash(Some(cs), todo[1..]);
      var k :| StoppedAt(Some(cs), todo[1..], k);
      StoppedAtShift(built, todo, cs, k);
    }
  }

  /** A clash on the first column stops the loop at once. */
  lemma StoppedAtHead(built: Option<seq<Column>>, todo: seq<Column>)
    requires todo != [] && AddColumn(built, todo[0]).Err?
    ensures StoppedAt(built, todo, 0)
  {
    assert todo[..0] == [];
    assert Start(built) + todo[..0] == built.value;
  }

  /** A loop stopped after an added first column stopped one step later. */
  lemma StoppedAtShift(built: Option<seq<Column>>, todo: seq<Column>, cs: seq<Column>, k: int)
    requires todo != [] && AddColumn(built, todo[0]) == Ok(cs)
    requires StoppedAt(Some(cs), todo[1..], k)
    ensures StoppedAt(built, todo, k + 1)
  {
    var s0, rest := Start(built), todo[1..];
    assert BuildColumns(built, todo) == BuildColumns(Some(cs), rest);
    PrefixShift(s0, todo, k);
  }

  lemma PrefixShift(s0: seq<Column>, todo: seq<Column>, k: int)
    requires 0 <= k < |todo| - 1
    ensures (s0 + [todo[0]]) + todo[1..][..k] == s0 + todo[..k + 1]
    ensures todo[1..][k] == todo[k + 1]
  {
    assert todo[..k + 1] == [todo[0]] + todo[1..][..k];
  }

  /** Prediction: whatever the table held before, afterwards it has no
      rows; with clash-free names it has exactly the schema's columns in
      order (no table at all for an empty schema). */
  lemma PredictionRebuilds(t: Option<Table>, connect: Outcome, columns: seq<Column>)
    requires connect.Pass?
    ensures var (r, o) := CreateTableSpec(t, Prediction, connect, columns);
      (r.None? || r.value.rows == [])
      && (o == Pass <==> DistinctNames(columns))
      && (o == Pass ==> r == if columns == [] then None else Some(Table(columns, [])))
  {
    if columns != [] {
      var col := columns[0];
      assert columns == [col] + columns[1..];
      BuildColumnsSucceeds([col], columns[1..]);
      if BuildColumns(None, columns).1.Fail? {
        BuildColumnsClash(None, columns);
      }
    }
  }

  /** Training: an existing table is kept as it is, rows included, so a
      second call after a first one changes nothing. */
  lemma TrainingKeeps(t: Option<Table>, connect: Outcome, columns: seq<Column>)
    requires connect.Pass?
    ensures t.Some? ==> CreateTableSpec(t, Training, connect, columns) == (t, Pass)
    ensures var t1 := CreateTableSpec(t, Training, connect, columns).0;
      CreateTableSpec(t1, Training, connect, columns).0 == t1
  {
  }

  /** Training without a table builds it like prediction does. */
  lemma TrainingBuildsWhenAbsent(connect: Outcome, columns: seq<Column>)
    requires connect.Pass?
    ensures CreateTableSpec(None, Training, connect, columns) == CreateTableSpec(None, Prediction, connect, columns)
  {
  }

  /** A failed connection changes nothing and surfaces as the
      `UnboundLocalError` of `conn.close()` in the handler. */
  lemma CreateTableNoConnection(t: Option<Table>, v: Variant, connect: Outcome, columns: seq<Column>)
    requires connect.Fail?
    ensures CreateTableSpec(t, v, connect, columns) == (t, Fail(UnboundLocalError("conn")))
  {
  }
}
