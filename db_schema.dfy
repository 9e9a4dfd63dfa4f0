/**
 * Database schema verification (scoring/db.go): the live schema built from
 * INFORMATION_SCHEMA rows as table -> column -> type, and DBverify's walk
 * over the parsed statements of the schema file.
 */
module DbSchema {
  import opened Wrappers
  import opened Rows

  /** One INFORMATION_SCHEMA row: schema[table][column] = type. */
  type Row = Entry<string, string, string>

  type Schema = map<string, map<string, string>>

  datatype DbError =
    | QueryError
    | ScanError
    | IterationError
    | SchemaFileError
    | SchemaUnavailable
    | TableMissing(table: string)
    | ColumnMissing(column: string, table: string)

  /** getExistingSchema: the schema, or the query, scan or iteration error that stopped it. */
  function ExistingSchema(q: Query<Row>): (r: Result<Schema, DbError>)
    ensures r.Ok? <==> q.Rows? && !AnyScanFailed(q.results) && !q.iterationError
    ensures q.QueryFailed? ==> r == Err(QueryError)
    ensures q.Rows? && AnyScanFailed(q.results) ==> r == Err(ScanError)
    ensures q.Rows? && !AnyScanFailed(q.results) && q.iterationError ==> r == Err(IterationError)
  {
    if q.QueryFailed? then Err(QueryError)
    else if AnyScanFailed(q.results) then Err(ScanError)
    else if q.iterationError then Err(IterationError)
    else Ok(Nest(ScannedPrefix(q.results)))
  }

  /**
   * A table is in the existing schema exactly when some row names it, and a
   * column exactly when some row names the pair.
   */
  lemma ExistingSchemaContents(q: Query<Row>, t: string, c: string)
    requires ExistingSchema(q).Ok?
    ensures var rows := ScannedPrefix(q.results);
            (t in ExistingSchema(q).value <==> exists i :: 0 <= i < |rows| && rows[i].outer == t) &&
            (t in ExistingSchema(q).value && c in ExistingSchema(q).value[t] <==>
               exists i :: 0 <= i < |rows| && rows[i].outer == t && rows[i].inner == c)
  {
    assert ExistingSchema(q).value == Nest(ScannedPrefix(q.results));
    NestOuterKeys(ScannedPrefix(q.results), t);
    NestInnerKeys(ScannedPrefix(q.results), t, c);
  }

  /** A column's type in the existing schema is that of the last row naming its table and column. */
  lemma ExistingSchemaLastType(q: Query<Row>, i: nat)
    requires ExistingSchema(q).Ok?
    requires i < |ScannedPrefix(q.results)|
    requires var rows := ScannedPrefix(q.results);
             forall j :: i < j < |rows| ==> rows[j].outer != rows[i].outer || rows[j].inner != rows[i].inner
    ensures var row := ScannedPrefix(q.results)[i];
            row.outer in ExistingSchema(q).value && row.inner in ExistingSchema(q).value[row.outer] &&
            ExistingSchema(q).value[row.outer][row.inner] == row.value
  {
    NestLastWins(ScannedPrefix(q.results), i);
  }

  /** The row loop of getExistingSchema, filling the nested map in place. */
  method GetExistingSchema(q: Query<Row>) returns (r: Result<Schema, DbError>)
    ensures r == ExistingSchema(q)
  {
    if q.QueryFailed? {
      return Err(QueryError);
    }
    var results := q.results;
    var schema: Schema := map[];
    ghost var rows: seq<Row> := [];
    for i := 0 to |results|
      invariant |rows| == i && forall k :: 0 <= k < i ==> results[k] == Scanned(rows[k])
      invariant schema == Nest(rows)
    {
      if results[i].ScanFailed? {
        return Err(ScanError);
      }
      var row := results[i].value;
      NestStep(rows, row);
      if row.outer !in schema {
        schema := schema[row.outer := map[]];
      }
      schema := schema[row.outer := schema[row.outer][row.inner := row.value]];
      rows := rows + [row];
    }
    if q.iterationError {
      return Err(IterationError);
    }
    AllScanned(results);
    assert ScannedPrefix(results) == rows;
    return Ok(schema);
  }

  /** The statement kinds of the schema file that DBverify tells apart. */
  datatype Statement =
    | Ddl(action: string, table: string, columns: seq<string>)
    | DbDdl
    | Use
    | Other

  /** The first declared column the table lacks. */
  function FirstMissingColumn(columns: seq<string>, existing: map<string, string>): (r: Option<string>)
    ensures r.None? <==> forall k :: 0 <= k < |columns| ==> columns[k] in existing
    ensures r.Some? ==> r.value in columns && r.value !in existing
    ensures r.Some? ==> exists k :: 0 <= k < |columns| && columns[k] == r.value &&
                                    forall j :: 0 <= j < k ==> columns[j] in existing
  {
    if columns == [] then None
    else if columns[0] !in existing then Some(columns[0])
    else
      var rest := FirstMissingColumn(columns[1..], existing);
      assert forall k :: 1 <= k < |columns| ==> columns[k] == columns[1..][k - 1];
      if rest.Some? then
        var k :| 0 <= k < |columns[1..]| && columns[1..][k] == rest.value &&
                 forall j :: 0 <= j < k ==> columns[1..][j] in existing;
        assert columns[k + 1] == rest.value;
        rest
      else rest
  }

  /** The verdict on one statement: only CREATE TABLE statements are checked. */
  function StatementError(stmt: Statement, schema: Schema): Option<DbError>
  {
    if stmt.Ddl? && stmt.action == "create" then
      if stmt.table !in schema then Some(TableMissing(stmt.table))
      else
        var missing := FirstMissingColumn(stmt.columns, schema[stmt.table]);
        if missing.Some? then Some(ColumnMissing(missing.value, stmt.table)) else None
    else None
  }

  /** A statement is satisfied when it is not a create, or its table and every declared column exist. */
  predicate Satisfied(stmt: Statement, schema: Schema)
  {
    stmt.Ddl? && stmt.action == "create" ==>
      stmt.table in schema && forall c :: c in stmt.columns ==> c in schema[stmt.table]
  }

  /** A statement passes exactly when it is satisfied. */
  lemma StatementPassesIff(stmt: Statement, schema: Schema)
    ensures StatementError(stmt, schema).None? <==> Satisfied(stmt, schema)
  {
    if stmt.Ddl? && stmt.action == "create" && stmt.table in schema {
      var missing := FirstMissingColumn(stmt.columns, schema[stmt.table]);
      if missing.None? {
        forall c | c in stmt.columns ensures c in schema[stmt.table] {
          var k :| 0 <= k < |stmt.columns| && stmt.columns[k] == c;
        }
      }
    }
  }

  /** The first statement that fails, in file order. */
  function FirstFailure(stmts: seq<Statement>, schema: Schema): Option<DbError>
  {
    if stmts == [] then None
    else
      var e := StatementError(stmts[0], schema);
      if e.Some? then e else FirstFailure(stmts[1..], schema)
  }

  /** The reported failure is that of a statement all of whose predecessors pass. */
  lemma {:induction false} FirstFailureIsFirst(stmts: seq<Statement>, schema: Schema)
    requires FirstFailure(stmts, schema).Some?
    ensures exists i :: 0 <= i < |stmts| && StatementError(stmts[i], schema) == FirstFailure(stmts, schema)
                        && forall j :: 0 <= j < i ==> StatementError(stmts[j], schema).None?
  {
    if StatementError(stmts[0], schema).None? {
      FirstFailureIsFirst(stmts[1..], schema);
      var i :| 0 <= i < |stmts[1..]| && StatementError(stmts[1..][i], schema) == FirstFailure(stmts[1..], schema)
               && forall j :: 0 <= j < i ==> StatementError(stmts[1..][j], schema).None?;
      assert forall j :: 1 <= j < i + 1 ==> stmts[j] == stmts[1..][j - 1];
      assert StatementError(stmts[i + 1], schema) == FirstFailure(stmts, schema);
    }
  }

  /** No failure exactly when every statement is satisfied. */
  lemma {:induction false} NoFailureIffSatisfied(stmts: seq<Statement>, schema: Schema)
    ensures FirstFailure(stmts, schema).None? <==> forall k :: 0 <= k < |stmts| ==> Satisfied(stmts[k], schema)
  {
    if stmts != [] {
      StatementPassesIff(stmts[0], schema);
      NoFailureIffSatisfied(stmts[1..], schema);
      assert forall k :: 1 <= k < |stmts| ==> stmts[k] == stmts[1..][k - 1];
    }
  }

  /**
   * DBverify with the parsed schema file (None: it could not be read or
   * parsed) and the information-schema query as inputs.
   */
  function Verdict(stmts: Option<seq<Statement>>, q: Query<Row>): Option<DbError>
  {
    if stmts.None? then Some(SchemaFileError)
    else
      var existing := ExistingSchema(q);
      if existing.Err? then Some(SchemaUnavailable)
      else FirstFailure(stmts.value, existing.value)
  }

  /** The column loop of one CREATE TABLE statement. */
  method CheckColumns(columns: seq<string>, existing: map<string, string>) returns (missing: Option<string>)
    ensures missing == FirstMissingColumn(columns, existing)
  {
    for i := 0 to |columns|
      invariant FirstMissingColumn(columns, existing) == FirstMissingColumn(columns[i..], existing)
    {
      assert columns[i..][1..] == columns[i + 1..];
      if columns[i] !in existing {
        return Some(columns[i]);
      }
    }
    assert columns[|columns|..] == [];
    return None;
  }

  /**
   * DBverify: the statement loop with early returns. It answers valid
   * exactly when it reports no error, so it never says "invalid" without
   * an error, and DBconnect's "schema is not valid" branch cannot be taken.
   */
  method DBverify(stmts: Option<seq<Statement>>, q: Query<Row>) returns (valid: bool, err: Option<DbError>)
    ensures err == Verdict(stmts, q)
    ensures valid <==> err.None?
  {
    if stmts.None? {
      return false, Some(SchemaFileError);
    }
    var existing := GetExistingSchema(q);
    if existing.Err? {
      return false, Some(SchemaUnavailable);
    }
    var schema := existing.value;
    var statements := stmts.value;
    for i := 0 to |statements|
      invariant FirstFailure(statements, schema) == FirstFailure(statements[i..], schema)
    {
      assert statements[i..][1..] == statements[i + 1..];
      var stmt := statements[i];
      match stmt {
        case Ddl(action, table, columns) =>
          if action == "create" {
            if table !in schema {
              return false, Some(TableMissing(table));
            }
            var missing := CheckColumns(columns, schema[table]);
            if missing.Some? {
              return false, Some(ColumnMissing(missing.value, table));
            }
          }
        case DbDdl =>
        case Use =>
        case Other =>
      }
    }
    assert statements[|statements|..] == [];
    return true, None;
  }
}
