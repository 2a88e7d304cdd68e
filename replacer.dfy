/**
 * `IdReplacer`: `execute` and one loop method per phase.  Every method is
 * proved to do against its connection exactly what the Plan module says: the
 * events it records, the number of statements it sends and how it ends.
 */
module Replacer {
  import opened Wrappers
  import opened Catalog
  import opened SqlBuilder
  import opened Plan
  import opened Store

  class IdReplacer {
    /** The primary-key catalog rows of the last `execute` that loaded them. */
    var primaryKeys: Option<seq<PkRow>>
    /** The foreign-key catalog rows of the last `execute` that loaded them. */
    var foreignKeys: Option<seq<FkRow>>

    constructor ()
      ensures primaryKeys == None && foreignKeys == None
    {
      primaryKeys := None;
      foreignKeys := None;
    }

    /**
     * Replaces the sequential ids by UUIDs.  Returns the connection it opened
     * (null when it raised before connecting) and how it ended.
     */
    method Execute(params: Option<Params>, server: Server) returns (conn: Connection?, outcome: Outcome<Error>)
      modifies this
      ensures conn == null <==> params.None? || !server.accepts
      ensures conn != null ==> fresh(conn) && conn.server == server
                               && conn.trace == Session(params, server).events
                               && conn.executed == Session(params, server).executed
      ensures outcome == Session(params, server).outcome
      ensures primaryKeys == if conn != null && server.primaryKeys.Some? then server.primaryKeys
                             else old(primaryKeys)
      ensures foreignKeys == if conn != null && server.primaryKeys.Some? && server.foreignKeys.Some?
                             then server.foreignKeys else old(foreignKeys)
    {
      if params.None? {
        return null, Fail(ParamsNotDefined);
      }
      if !server.accepts {
        return null, Fail(ConnectionFailed);
      }
      conn := new Connection.Open(server);
      var pks := conn.SelectPrimaryKeys();
      if pks.None? {
        conn.Record(RolledBack);
        conn.Record(Closed);
        return conn, Fail(CatalogQueryFailed);
      }
      primaryKeys := pks;
      var fks := conn.SelectForeignKeys();
      if fks.None? {
        conn.Record(RolledBack);
        conn.Record(Closed);
        return conn, Fail(CatalogQueryFailed);
      }
      foreignKeys := fks;
      conn.Record(SetUp);
      ghost var loaded := conn.trace;
      assert loaded == [Opened, QueriedPrimaryKeys, QueriedForeignKeys, SetUp];
      outcome := RunPhases(conn, params.value.serialName, pks.value, fks.value);
      ghost var phased := conn.trace;
      conn.Record(TornDown);
      ghost var finish := if outcome.Pass? then Committed else RolledBack;
      if outcome.Pass? {
        conn.Record(Committed);
      } else {
        conn.Record(RolledBack);
      }
      conn.Record(Closed);
      ThreeRecorded(phased, TornDown, finish, Closed);
    }

    /** The body of the inner `try`: the phases in order, the first exception ending them. */
    method RunPhases(conn: Connection, serialName: Option<string>, pks: seq<PkRow>, fks: seq<FkRow>)
      returns (outcome: Outcome<Error>)
      requires conn.pkQueries > 0 && conn.executed == 0
      modifies conn
      ensures Did(conn, old(conn.trace),
                  Phases(serialName, pks, fks, conn.server.primaryKeysLater, conn.server.failingStatement), outcome)
    {
      ghost var trace0, failAt := conn.trace, conn.server.failingStatement;
      outcome := AddTemporaryColumn(conn, pks);
      ghost var r := RunPk(AddTemp, pks, 0, failAt);
      if outcome.Pass? {
        outcome := AssignValueToTemporaryPkColumn(conn, pks);
        ThenAppends(trace0, r, RunPk(AssignTemp, pks, r.executed, failAt));
      }
      r := Then(r, RunPk(AssignTemp, pks, r.executed, failAt));
      if outcome.Pass? {
        outcome := AddSerialColumn(conn, serialName, pks);
        ThenAppends(trace0, r, RunSerial(serialName, false, pks, r.executed, failAt));
      }
      r := Then(r, RunSerial(serialName, false, pks, r.executed, failAt));
      if outcome.Pass? {
        outcome := CopyPkColumnToSerialColumn(conn, serialName, pks);
        ThenAppends(trace0, r, RunSerial(serialName, true, pks, r.executed, failAt));
      }
      r := Then(r, RunSerial(serialName, true, pks, r.executed, failAt));
      if outcome.Pass? {
        outcome := DropFkConstraint(conn, fks);
        ThenAppends(trace0, r, RunFk(DropFk, fks, r.executed, failAt));
      }
      r := Then(r, RunFk(DropFk, fks, r.executed, failAt));
      if outcome.Pass? {
        outcome := ChangeFkColumnToDatatype(conn, fks, "varchar");
        ThenAppends(trace0, r, RunFk(RetypeFk("varchar"), fks, r.executed, failAt));
      }
      r := Then(r, RunFk(RetypeFk("varchar"), fks, r.executed, failAt));
      if outcome.Pass? {
        outcome := CopyPkValuesToFkColumns(conn, fks);
        ThenAppends(trace0, r, RunFk(PropagateToFk, fks, r.executed, failAt));
      }
      r := Then(r, RunFk(PropagateToFk, fks, r.executed, failAt));
      if outcome.Pass? {
        outcome := ChangeFkColumnToDatatype(conn, fks, "uuid");
        ThenAppends(trace0, r, RunFk(RetypeFk("uuid"), fks, r.executed, failAt));
      }
      r := Then(r, RunFk(RetypeFk("uuid"), fks, r.executed, failAt));
      if outcome.Pass? {
        outcome := ChangePkColumnToUuid(conn);
        ThenAppends(trace0, r, RunRequery(conn.server.primaryKeysLater, r.executed, failAt));
      }
      r := Then(r, RunRequery(conn.server.primaryKeysLater, r.executed, failAt));
      if outcome.Pass? {
        outcome := CopyTemporaryColumnToPk(conn, pks);
        ThenAppends(trace0, r, RunPk(TempToPk, pks, r.executed, failAt));
      }
      r := Then(r, RunPk(TempToPk, pks, r.executed, failAt));
      if outcome.Pass? {
        outcome := CreateFkConstraint(conn, fks);
        ThenAppends(trace0, r, RunFk(RecreateFk, fks, r.executed, failAt));
      }
      r := Then(r, RunFk(RecreateFk, fks, r.executed, failAt));
    }

    /** `_add_temporary_column`: adds the UUID temp column to every primary-key table. */
    method AddTemporaryColumn(conn: Connection, rows: seq<PkRow>) returns (outcome: Outcome<Error>)
      modifies conn
      ensures Did(conn, old(conn.trace), RunPk(AddTemp, rows, old(conn.executed), conn.server.failingStatement), outcome)
      ensures conn.pkQueries == old(conn.pkQueries)
    {
      ghost var trace0, sent0, failAt := conn.trace, conn.executed, conn.server.failingStatement;
      for i := 0 to |rows|
        invariant Did(conn, trace0, RunPk(AddTemp, rows[..i], sent0, failAt), Pass)
        invariant conn.pkQueries == old(conn.pkQueries)
      {
        var table := TableName(rows[i].tableSchema, rows[i].tableName);
        var sql := AddColumnSql(table, TempColumnName(rows[i].columnName), "UUID");
        PkRowSends(AddTemp, rows, i, sent0, failAt, sql, trace0);
        var ok := conn.Execute(sql);
        if !ok {
          RunPkStops(AddTemp, rows, i + 1, sent0, failAt);
          return Fail(StatementFailed(sql));
        }
      }
      assert rows[..|rows|] == rows;
      return Pass;
    }

    /** `_assign_value_to_temporary_pk_column`: fills each temp column through `str.format`. */
    method AssignValueToTemporaryPkColumn(conn: Connection, rows: seq<PkRow>) returns (outcome: Outcome<Error>)
      modifies conn
      ensures Did(conn, old(conn.trace), RunPk(AssignTemp, rows, old(conn.executed), conn.server.failingStatement), outcome)
      ensures conn.pkQueries == old(conn.pkQueries)
    {
      ghost var trace0, sent0, failAt := conn.trace, conn.executed, conn.server.failingStatement;
      for i := 0 to |rows|
        invariant Did(conn, trace0, RunPk(AssignTemp, rows[..i], sent0, failAt), Pass)
        invariant conn.pkQueries == old(conn.pkQueries)
      {
        var table := TableName(rows[i].tableSchema, rows[i].tableName);
        var update := UpdateColumnSql(table, TempColumnName(rows[i].columnName), Placeholder);
        var command := PrimaryKeyUpdateCommand(update);
        if command.None? {
          PkRowRaises(AssignTemp, rows, i, sent0, failAt, MalformedTemplate(update));
          RunPkStops(AssignTemp, rows, i + 1, sent0, failAt);
          return Fail(MalformedTemplate(update));
        }
        PkRowSends(AssignTemp, rows, i, sent0, failAt, command.value, trace0);
        var ok := conn.Execute(command.value);
        if !ok {
          RunPkStops(AssignTemp, rows, i + 1, sent0, failAt);
          return Fail(StatementFailed(command.value));
        }
      }
      assert rows[..|rows|] == rows;
      return Pass;
    }

    /** `_add_serial_column`: reads `params['serial_name']`, then adds that column to every table. */
    method AddSerialColumn(conn: Connection, serialName: Option<string>, rows: seq<PkRow>) returns (outcome: Outcome<Error>)
      modifies conn
      ensures Did(conn, old(conn.trace), RunSerial(serialName, false, rows, old(conn.executed), conn.server.failingStatement), outcome)
      ensures conn.pkQueries == old(conn.pkQueries)
    {
      if serialName.None? {
        return Fail(MissingSerialName);
      }
      var name := serialName.value;
      ghost var trace0, sent0, failAt := conn.trace, conn.executed, conn.server.failingStatement;
      for i := 0 to |rows|
        invariant Did(conn, trace0, RunPk(AddSerial(name), rows[..i], sent0, failAt), Pass)
        invariant conn.pkQueries == old(conn.pkQueries)
      {
        var table := TableName(rows[i].tableSchema, rows[i].tableName);
        var sql := AddColumnSql(table, name, rows[i].dataType);
        PkRowSends(AddSerial(name), rows, i, sent0, failAt, sql, trace0);
        var ok := conn.Execute(sql);
        if !ok {
          RunPkStops(AddSerial(name), rows, i + 1, sent0, failAt);
          return Fail(StatementFailed(sql));
        }
      }
      assert rows[..|rows|] == rows;
      return Pass;
    }

    /** `_copy_pk_column_to_serial_column`: keeps each old integer id in the serial column. */
    method CopyPkColumnToSerialColumn(conn: Connection, serialName: Option<string>, rows: seq<PkRow>) returns (outcome: Outcome<Error>)
      modifies conn
      ensures Did(conn, old(conn.trace), RunSerial(serialName, true, rows, old(conn.executed), conn.server.failingStatement), outcome)
      ensures conn.pkQueries == old(conn.pkQueries)
    {
      if serialName.None? {
        return Fail(MissingSerialName);
      }
      var name := serialName.value;
      ghost var trace0, sent0, failAt := conn.trace, conn.executed, conn.server.failingStatement;
      for i := 0 to |rows|
        invariant Did(conn, trace0, RunPk(CopyToSerial(name), rows[..i], sent0, failAt), Pass)
        invariant conn.pkQueries == old(conn.pkQueries)
      {
        var table := TableName(rows[i].tableSchema, rows[i].tableName);
        var sql := UpdateColumnSql(table, name, rows[i].columnName);
        PkRowSends(CopyToSerial(name), rows, i, sent0, failAt, sql, trace0);
        var ok := conn.Execute(sql);
        if !ok {
          RunPkStops(CopyToSerial(name), rows, i + 1, sent0, failAt);
          return Fail(StatementFailed(sql));
        }
      }
      assert rows[..|rows|] == rows;
      return Pass;
    }

    /** `_drop_fk_constraint`: drops every foreign-key constraint, if it exists. */
    method DropFkConstraint(conn: Connection, rows: seq<FkRow>) returns (outcome: Outcome<Error>)
      modifies conn
      ensures Did(conn, old(conn.trace), RunFk(DropFk, rows, old(conn.executed), conn.server.failingStatement), outcome)
      ensures conn.pkQueries == old(conn.pkQueries)
    {
      ghost var trace0, sent0, failAt := conn.trace, conn.executed, conn.server.failingStatement;
      for i := 0 to |rows|
        invariant Did(conn, trace0, RunFk(DropFk, rows[..i], sent0, failAt), Pass)
        invariant conn.pkQueries == old(conn.pkQueries)
      {
        var table := TableName(rows[i].tableSchema, rows[i].tableName);
        var sql := DropConstraintSql(table, rows[i].constraintName);
        FkRowSends(DropFk, rows, i, sent0, failAt, sql, trace0);
        var ok := conn.Execute(sql);
        if !ok {
          RunFkStops(DropFk, rows, i + 1, sent0, failAt);
          return Fail(StatementFailed(sql));
        }
      }
      assert rows[..|rows|] == rows;
      return Pass;
    }

    /** `_change_fk_column_to_datatype`: retypes every foreign-key column not already of `dataType`. */
    method ChangeFkColumnToDatatype(conn: Connection, rows: seq<FkRow>, dataType: string) returns (outcome: Outcome<Error>)
      modifies conn
      ensures Did(conn, old(conn.trace), RunFk(RetypeFk(dataType), rows, old(conn.executed), conn.server.failingStatement), outcome)
      ensures conn.pkQueries == old(conn.pkQueries)
    {
      ghost var trace0, sent0, failAt := conn.trace, conn.executed, conn.server.failingStatement;
      for i := 0 to |rows|
        invariant Did(conn, trace0, RunFk(RetypeFk(dataType), rows[..i], sent0, failAt), Pass)
        invariant conn.pkQueries == old(conn.pkQueries)
      {
        if rows[i].dataType == dataType {
          FkRowSkipped(RetypeFk(dataType), rows, i, sent0, failAt);
          continue;
        }
        var table := TableName(rows[i].tableSchema, rows[i].tableName);
        var sql := AlterColumnDatatypeSql(table, rows[i].columnName, dataType);
        FkRowSends(RetypeFk(dataType), rows, i, sent0, failAt, sql, trace0);
        var ok := conn.Execute(sql);
        if !ok {
          RunFkStops(RetypeFk(dataType), rows, i + 1, sent0, failAt);
          return Fail(StatementFailed(sql));
        }
      }
      assert rows[..|rows|] == rows;
      return Pass;
    }

    /** `_copy_pk_values_to_fk_columns`: rewrites each foreign key to its referenced row's temp value. */
    method CopyPkValuesToFkColumns(conn: Connection, rows: seq<FkRow>) returns (outcome: Outcome<Error>)
      modifies conn
      ensures Did(conn, old(conn.trace), RunFk(PropagateToFk, rows, old(conn.executed), conn.server.failingStatement), outcome)
      ensures conn.pkQueries == old(conn.pkQueries)
    {
      ghost var trace0, sent0, failAt := conn.trace, conn.executed, conn.server.failingStatement;
      for i := 0 to |rows|
        invariant Did(conn, trace0, RunFk(PropagateToFk, rows[..i], sent0, failAt), Pass)
        invariant conn.pkQueries == old(conn.pkQueries)
      {
        var table := TableName(rows[i].tableSchema, rows[i].tableName);
        var foreignTable := TableName(rows[i].foreignTableSchema, rows[i].foreignTableName);
        var temp := TempColumnName(rows[i].foreignColumnName);
        var sql := CopyPkValuesToFkSql(table, rows[i].columnName, temp, foreignTable, rows[i].foreignColumnName);
        FkRowSends(PropagateToFk, rows, i, sent0, failAt, sql, trace0);
        var ok := conn.Execute(sql);
        if !ok {
          RunFkStops(PropagateToFk, rows, i + 1, sent0, failAt);
          return Fail(StatementFailed(sql));
        }
      }
      assert rows[..|rows|] == rows;
      return Pass;
    }

    /**
     * `_change_pk_column_to_uuid`: asks the catalog for the primary keys again
     * and casts every one not already a uuid.
     */
    method ChangePkColumnToUuid(conn: Connection) returns (outcome: Outcome<Error>)
      requires conn.pkQueries > 0
      modifies conn
      ensures Did(conn, old(conn.trace),
                  RunRequery(conn.server.primaryKeysLater, old(conn.executed), conn.server.failingStatement), outcome)
      ensures conn.pkQueries == old(conn.pkQueries) + 1
    {
      var queried := conn.SelectPrimaryKeys();
      if queried.None? {
        return Fail(CatalogQueryFailed);
      }
      var rows := queried.value;
      ghost var trace0, sent0, failAt := conn.trace, conn.executed, conn.server.failingStatement;
      ghost var pkQueries0 := conn.pkQueries;
      for i := 0 to |rows|
        invariant Did(conn, trace0, RunPk(PkToUuid, rows[..i], sent0, failAt), Pass)
        invariant conn.pkQueries == pkQueries0
      {
        if rows[i].dataType == "uuid" {
          PkRowSkipped(PkToUuid, rows, i, sent0, failAt);
          continue;
        }
        var table := TableName(rows[i].tableSchema, rows[i].tableName);
        var sql := AlterPkColumnToUuidSql(table, rows[i].columnName);
        PkRowSends(PkToUuid, rows, i, sent0, failAt, sql, trace0);
        var ok := conn.Execute(sql);
        if !ok {
          RunPkStops(PkToUuid, rows, i + 1, sent0, failAt);
          EventsAssoc(old(conn.trace), [QueriedPrimaryKeys], RunPk(PkToUuid, rows, sent0, failAt).events);
          return Fail(StatementFailed(sql));
        }
      }
      assert rows[..|rows|] == rows;
      EventsAssoc(old(conn.trace), [QueriedPrimaryKeys], RunPk(PkToUuid, rows, sent0, failAt).events);
      return Pass;
    }

    /** `_copy_temporary_column_to_pk`: moves each temp value into its primary-key column. */
    method CopyTemporaryColumnToPk(conn: Connection, rows: seq<PkRow>) returns (outcome: Outcome<Error>)
      modifies conn
      ensures Did(conn, old(conn.trace), RunPk(TempToPk, rows, old(conn.executed), conn.server.failingStatement), outcome)
      ensures conn.pkQueries == old(conn.pkQueries)
    {
      ghost var trace0, sent0, failAt := conn.trace, conn.executed, conn.server.failingStatement;
      for i := 0 to |rows|
        invariant Did(conn, trace0, RunPk(TempToPk, rows[..i], sent0, failAt), Pass)
        invariant conn.pkQueries == old(conn.pkQueries)
      {
        var table := TableName(rows[i].tableSchema, rows[i].tableName);
        var sql := UpdateColumnSql(table, rows[i].columnName, TempColumnName(rows[i].columnName));
        PkRowSends(TempToPk, rows, i, sent0, failAt, sql, trace0);
        var ok := conn.Execute(sql);
        if !ok {
          RunPkStops(TempToPk, rows, i + 1, sent0, failAt);
          return Fail(StatementFailed(sql));
        }
      }
      assert rows[..|rows|] == rows;
      return Pass;
    }

    /** `_create_fk_constraint`: recreates every foreign-key constraint under its original name. */
    method CreateFkConstraint(conn: Connection, rows: seq<FkRow>) returns (outcome: Outcome<Error>)
      modifies conn
      ensures Did(conn, old(conn.trace), RunFk(RecreateFk, rows, old(conn.executed), conn.server.failingStatement), outcome)
      ensures conn.pkQueries == old(conn.pkQueries)
    {
      ghost var trace0, sent0, failAt := conn.trace, conn.executed, conn.server.failingStatement;
      for i := 0 to |rows|
        invariant Did(conn, trace0, RunFk(RecreateFk, rows[..i], sent0, failAt), Pass)
        invariant conn.pkQueries == old(conn.pkQueries)
      {
        var table := TableName(rows[i].tableSchema, rows[i].tableName);
        var foreignTable := TableName(rows[i].foreignTableSchema, rows[i].foreignTableName);
        var sql := CreateConstraintSql(table, rows[i].constraintName, rows[i].columnName,
                                       foreignTable, rows[i].foreignColumnName);
        FkRowSends(RecreateFk, rows, i, sent0, failAt, sql, trace0);
        var ok := conn.Execute(sql);
        if !ok {
          RunFkStops(RecreateFk, rows, i + 1, sent0, failAt);
          return Fail(StatementFailed(sql));
        }
      }
      assert rows[..|rows|] == rows;
      return Pass;
    }

    /** `_drop_column_default_value`: defined by the source but never called from `execute`. */
    method DropColumnDefaultValue(conn: Connection, rows: seq<PkRow>) returns (outcome: Outcome<Error>)
      modifies conn
      ensures Did(conn, old(conn.trace), RunPk(DropPkDefault, rows, old(conn.executed), conn.server.failingStatement), outcome)
      ensures conn.pkQueries == old(conn.pkQueries)
    {
      ghost var trace0, sent0, failAt := conn.trace, conn.executed, conn.server.failingStatement;
      for i := 0 to |rows|
        invariant Did(conn, trace0, RunPk(DropPkDefault, rows[..i], sent0, failAt), Pass)
        invariant conn.pkQueries == old(conn.pkQueries)
      {
        var table := TableName(rows[i].tableSchema, rows[i].tableName);
        var sql := DropDefaultSql(table, rows[i].columnName);
        PkRowSends(DropPkDefault, rows, i, sent0, failAt, sql, trace0);
        var ok := conn.Execute(sql);
        if !ok {
          RunPkStops(DropPkDefault, rows, i + 1, sent0, failAt);
          return Fail(StatementFailed(sql));
        }
      }
      assert rows[..|rows|] == rows;
      return Pass;
    }
  }
}
