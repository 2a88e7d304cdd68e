/**
 * What `IdReplacer.execute` does, as values: the statements each phase loop
 * issues for its rows, the events a session records, and `Run`, which says how
 * a sequence of steps is carried out against a store that raises on one chosen
 * statement.  The Replacer module's methods are proved against these functions.
 */
module Plan {
  import opened Wrappers
  import opened Catalog
  import opened SqlBuilder

  /** The exceptions `execute` can end with. */
  datatype Error =
    | ParamsNotDefined                  // no `params` keyword argument
    | ConnectionFailed                  // opening the connection raised
    | CatalogQueryFailed                // a catalog query raised
    | MissingSerialName                 // `params['serial_name']` raised KeyError
    | MalformedTemplate(template: string) // `str.format` raised on the temp-column update
    | StatementFailed(sql: string)      // the store raised on this statement

  /** What a session records, in order. */
  datatype Event =
    | Opened
    | QueriedPrimaryKeys
    | QueriedForeignKeys
    | SetUp
    | Executed(sql: string)
    | TornDown
    | Committed
    | RolledBack
    | Closed

  /** The keyword arguments `execute` reads: `params`, of which only `serial_name` reaches the core. */
  datatype Params = Params(serialName: Option<string>)

  /**
   * The database server the connection talks to: whether connecting succeeds,
   * how it answers the catalog queries (None: the query raises; the primary-key
   * query is asked again in the PK retype phase), and which statement, counted
   * from 0 within the session, raises.
   */
  datatype Server = Server(
    accepts: bool,
    primaryKeys: Option<seq<PkRow>>,
    foreignKeys: Option<seq<FkRow>>,
    primaryKeysLater: Option<seq<PkRow>>,
    failingStatement: Option<nat>)

  /** Loop methods over primary-key rows. */
  datatype PkPhase =
    | AddTemp                      // _add_temporary_column
    | AssignTemp                   // _assign_value_to_temporary_pk_column
    | AddSerial(serialName: string)    // _add_serial_column
    | CopyToSerial(serialName: string) // _copy_pk_column_to_serial_column
    | PkToUuid                     // _change_pk_column_to_uuid
    | TempToPk                     // _copy_temporary_column_to_pk
    | DropPkDefault                // _drop_column_default_value (never called by execute)

  /** Loop methods over foreign-key rows. */
  datatype FkPhase =
    | DropFk                       // _drop_fk_constraint
    | RetypeFk(dataType: string)   // _change_fk_column_to_datatype
    | PropagateToFk                // _copy_pk_values_to_fk_columns
    | RecreateFk                   // _create_fk_constraint

  // ---------------------------------------------------------------------------
  // What each phase means to do
  // ---------------------------------------------------------------------------

  /** The statements one loop iteration means for a primary-key row (none when the row is skipped). */
  function PkRowStatements(phase: PkPhase, row: PkRow): seq<Statement>
  {
    var table := TableName(row.tableSchema, row.tableName);
    match phase
    case AddTemp => [AddColumn(table, TempColumnName(row.columnName), "UUID")]
    case AssignTemp => [UpdateColumn(table, TempColumnName(row.columnName), RandomUuid)]
    case AddSerial(serial) => [AddColumn(table, serial, row.dataType)]
    case CopyToSerial(serial) => [UpdateColumn(table, serial, row.columnName)]
    case PkToUuid => if row.dataType == "uuid" then [] else [AlterPkColumnToUuid(table, row.columnName)]
    case TempToPk => [UpdateColumn(table, row.columnName, TempColumnName(row.columnName))]
    case DropPkDefault => [DropDefault(table, row.columnName)]
  }

  /** The statements one loop iteration means for a foreign-key row (none when the row is skipped). */
  function FkRowStatements(phase: FkPhase, row: FkRow): seq<Statement>
  {
    var table := TableName(row.tableSchema, row.tableName);
    var foreignTable := TableName(row.foreignTableSchema, row.foreignTableName);
    match phase
    case DropFk => [DropConstraint(table, row.constraintName)]
    case RetypeFk(ty) => if row.dataType == ty then [] else [AlterColumnDatatype(table, row.columnName, ty)]
    case PropagateToFk =>
      [CopyPkValuesToFk(table, row.columnName, TempColumnName(row.foreignColumnName),
                        foreignTable, row.foreignColumnName)]
    case RecreateFk =>
      [CreateConstraint(table, row.constraintName, row.columnName, foreignTable, row.foreignColumnName)]
  }

  /** The parts of each row, one after another. */
  function Flatten<T>(parts: seq<seq<T>>): seq<T>
    decreases |parts|
  {
    if parts == [] then [] else Flatten(parts[..|parts| - 1]) + parts[|parts| - 1]
  }

  function PkStatements(phase: PkPhase, rows: seq<PkRow>): seq<Statement>
  {
    Flatten(PkStatementParts(phase, rows))
  }

  function PkStatementParts(phase: PkPhase, rows: seq<PkRow>): (parts: seq<seq<Statement>>)
    ensures |parts| == |rows|
    ensures forall i :: 0 <= i < |rows| ==> parts[i] == PkRowStatements(phase, rows[i])
  {
    seq(|rows|, i requires 0 <= i < |rows| => PkRowStatements(phase, rows[i]))
  }

  function FkStatements(phase: FkPhase, rows: seq<FkRow>): seq<Statement>
  {
    Flatten(FkStatementParts(phase, rows))
  }

  function FkStatementParts(phase: FkPhase, rows: seq<FkRow>): (parts: seq<seq<Statement>>)
    ensures |parts| == |rows|
    ensures forall i :: 0 <= i < |rows| ==> parts[i] == FkRowStatements(phase, rows[i])
  {
    seq(|rows|, i requires 0 <= i < |rows| => FkRowStatements(phase, rows[i]))
  }

  // ---------------------------------------------------------------------------
  // What each loop iteration does against the store
  // ---------------------------------------------------------------------------

  /** One thing a phase does against the store. */
  datatype Step =
    | Exec(sql: string)          // utils.execute(connection, sql)
    | Raise(error: Error)        // an exception raised before any statement
    | Requery(answered: bool)    // the primary-key catalog query, answered or raising

  /** Sending each statement's text, in order. */
  function Execs(statements: seq<Statement>): (steps: seq<Step>)
    ensures |steps| == |statements|
    ensures forall i :: 0 <= i < |statements| ==> steps[i] == Exec(Sql(statements[i]))
  {
    seq(|statements|, i requires 0 <= i < |statements| => Exec(Sql(statements[i])))
  }

  /**
   * The temp-column update: built with a `{value}` placeholder and then passed
   * through `str.format(value='gen_random_uuid()')`.
   */
  function AssignStep(row: PkRow): Step
  {
    var update := UpdateColumnSql(TableName(row.tableSchema, row.tableName),
                                  TempColumnName(row.columnName), Placeholder);
    match PrimaryKeyUpdateCommand(update)
    case Some(command) => Exec(command)
    case None => Raise(MalformedTemplate(update))
  }

  /** What one iteration of a primary-key loop does, builder by builder. */
  function PkRowSteps(phase: PkPhase, row: PkRow): seq<Step>
  {
    var table := TableName(row.tableSchema, row.tableName);
    match phase
    case AddTemp => [Exec(AddColumnSql(table, TempColumnName(row.columnName), "UUID"))]
    case AssignTemp => [AssignStep(row)]
    case AddSerial(serial) => [Exec(AddColumnSql(table, serial, row.dataType))]
    case CopyToSerial(serial) => [Exec(UpdateColumnSql(table, serial, row.columnName))]
    case PkToUuid => if row.dataType == "uuid" then [] else [Exec(AlterPkColumnToUuidSql(table, row.columnName))]
    case TempToPk => [Exec(UpdateColumnSql(table, row.columnName, TempColumnName(row.columnName)))]
    case DropPkDefault => [Exec(DropDefaultSql(table, row.columnName))]
  }

  /** What one iteration of a foreign-key loop does, builder by builder. */
  function FkRowSteps(phase: FkPhase, row: FkRow): seq<Step>
  {
    var table := TableName(row.tableSchema, row.tableName);
    var foreignTable := TableName(row.foreignTableSchema, row.foreignTableName);
    match phase
    case DropFk => [Exec(DropConstraintSql(table, row.constraintName))]
    case RetypeFk(ty) => if row.dataType == ty then [] else [Exec(AlterColumnDatatypeSql(table, row.columnName, ty))]
    case PropagateToFk =>
      [Exec(CopyPkValuesToFkSql(table, row.columnName, TempColumnName(row.foreignColumnName),
                                foreignTable, row.foreignColumnName))]
    case RecreateFk =>
      [Exec(CreateConstraintSql(table, row.constraintName, row.columnName, foreignTable, row.foreignColumnName))]
  }

  function PkSteps(phase: PkPhase, rows: seq<PkRow>): seq<Step>
  {
    Flatten(PkParts(phase, rows))
  }

  function PkParts(phase: PkPhase, rows: seq<PkRow>): (parts: seq<seq<Step>>)
    ensures |parts| == |rows|
    ensures forall i :: 0 <= i < |rows| ==> parts[i] == PkRowSteps(phase, rows[i])
  {
    seq(|rows|, i requires 0 <= i < |rows| => PkRowSteps(phase, rows[i]))
  }

  function FkSteps(phase: FkPhase, rows: seq<FkRow>): seq<Step>
  {
    Flatten(FkParts(phase, rows))
  }

  function FkParts(phase: FkPhase, rows: seq<FkRow>): (parts: seq<seq<Step>>)
    ensures |parts| == |rows|
    ensures forall i :: 0 <= i < |rows| ==> parts[i] == FkRowSteps(phase, rows[i])
  {
    seq(|rows|, i requires 0 <= i < |rows| => FkRowSteps(phase, rows[i]))
  }

  /** The two serial-column phases read `params['serial_name']` before their loop. */
  function SerialSteps(serialName: Option<string>, copy: bool, rows: seq<PkRow>): seq<Step>
  {
    match serialName
    case None => [Raise(MissingSerialName)]
    case Some(name) => PkSteps(if copy then CopyToSerial(name) else AddSerial(name), rows)
  }

  /** The PK retype phase queries the catalog again and loops over that answer. */
  function RequerySteps(later: Option<seq<PkRow>>): seq<Step>
  {
    match later
    case None => [Requery(false)]
    case Some(rows) => [Requery(true)] + PkSteps(PkToUuid, rows)
  }

  /** Everything the phases of `execute` do, in the order of its body. */
  function PhaseSteps(serialName: Option<string>, pks: seq<PkRow>, fks: seq<FkRow>,
                      later: Option<seq<PkRow>>): seq<Step>
  {
    PkSteps(AddTemp, pks)
    + PkSteps(AssignTemp, pks)
    + SerialSteps(serialName, false, pks)
    + SerialSteps(serialName, true, pks)
    + FkSteps(DropFk, fks)
    + FkSteps(RetypeFk("varchar"), fks)
    + FkSteps(PropagateToFk, fks)
    + FkSteps(RetypeFk("uuid"), fks)
    + RequerySteps(later)
    + PkSteps(TempToPk, pks)
    + FkSteps(RecreateFk, fks)
  }

  // ---------------------------------------------------------------------------
  // How a store carries steps out
  // ---------------------------------------------------------------------------

  /** Events recorded, final outcome, and the number of statements sent so far. */
  datatype Report = Report(events: seq<Event>, outcome: Outcome<Error>, executed: nat)

  /**
   * Carries out `steps` on a store that has already been sent `sent` statements
   * and raises on statement number `failAt`: the first exception ends the run.
   */
  function Run(steps: seq<Step>, sent: nat, failAt: Option<nat>): (r: Report)
    ensures sent <= r.executed <= sent + |steps|
    decreases |steps|
  {
    if steps == [] then Report([], Pass, sent)
    else
      match steps[0]
      case Exec(sql) =>
        if failAt == Some(sent) then Report([Executed(sql)], Fail(StatementFailed(sql)), sent + 1)
        else
          var rest := Run(steps[1..], sent + 1, failAt);
          Report([Executed(sql)] + rest.events, rest.outcome, rest.executed)
      case Raise(e) => Report([], Fail(e), sent)
      case Requery(answered) =>
        if !answered then Report([QueriedPrimaryKeys], Fail(CatalogQueryFailed), sent)
        else
          var rest := Run(steps[1..], sent, failAt);
          Report([QueriedPrimaryKeys] + rest.events, rest.outcome, rest.executed)
  }

  /** `rb` happens after `ra` only if `ra` passed: an exception skips the rest. */
  function Then(ra: Report, rb: Report): Report
  {
    if ra.outcome.Pass? then Report(ra.events + rb.events, rb.outcome, rb.executed) else ra
  }

  /** A primary-key loop, one row after another, stopping at the first exception. */
  function RunPk(phase: PkPhase, rows: seq<PkRow>, sent: nat, failAt: Option<nat>): Report
    decreases |rows|
  {
    if rows == [] then Report([], Pass, sent)
    else
      var before := RunPk(phase, rows[..|rows| - 1], sent, failAt);
      Then(before, Run(PkRowSteps(phase, rows[|rows| - 1]), before.executed, failAt))
  }

  /** A foreign-key loop, one row after another, stopping at the first exception. */
  function RunFk(phase: FkPhase, rows: seq<FkRow>, sent: nat, failAt: Option<nat>): Report
    decreases |rows|
  {
    if rows == [] then Report([], Pass, sent)
    else
      var before := RunFk(phase, rows[..|rows| - 1], sent, failAt);
      Then(before, Run(FkRowSteps(phase, rows[|rows| - 1]), before.executed, failAt))
  }

  function RunSerial(serialName: Option<string>, copy: bool, rows: seq<PkRow>, sent: nat, failAt: Option<nat>): Report
  {
    match serialName
    case None => Report([], Fail(MissingSerialName), sent)
    case Some(name) => RunPk(if copy then CopyToSerial(name) else AddSerial(name), rows, sent, failAt)
  }

  function RunRequery(later: Option<seq<PkRow>>, sent: nat, failAt: Option<nat>): Report
  {
    match later
    case None => Report([QueriedPrimaryKeys], Fail(CatalogQueryFailed), sent)
    case Some(rows) =>
      var r := RunPk(PkToUuid, rows, sent, failAt);
      Report([QueriedPrimaryKeys] + r.events, r.outcome, r.executed)
  }

  /** The body of the inner `try` of `execute`, phase after phase. */
  function Phases(serialName: Option<string>, pks: seq<PkRow>, fks: seq<FkRow>,
                  later: Option<seq<PkRow>>, failAt: Option<nat>): Report
  {
    var r1 := RunPk(AddTemp, pks, 0, failAt);
    var r2 := Then(r1, RunPk(AssignTemp, pks, r1.executed, failAt));
    var r3 := Then(r2, RunSerial(serialName, false, pks, r2.executed, failAt));
    var r4 := Then(r3, RunSerial(serialName, true, pks, r3.executed, failAt));
    var r5 := Then(r4, RunFk(DropFk, fks, r4.executed, failAt));
    var r6 := Then(r5, RunFk(RetypeFk("varchar"), fks, r5.executed, failAt));
    var r7 := Then(r6, RunFk(PropagateToFk, fks, r6.executed, failAt));
    var r8 := Then(r7, RunFk(RetypeFk("uuid"), fks, r7.executed, failAt));
    var r9 := Then(r8, RunRequery(later, r8.executed, failAt));
    var r10 := Then(r9, RunPk(TempToPk, pks, r9.executed, failAt));
    Then(r10, RunFk(RecreateFk, fks, r10.executed, failAt))
  }

  /**
   * The whole of `execute`: pre-flight checks, connect, load the catalog,
   * set up, the phases, tear down (always, once the catalog is loaded), commit
   * or roll back as `with conn` does, and close (always, once connected).
   */
  function Session(params: Option<Params>, server: Server): (r: Report)
    ensures params.None? ==> r.events == [] && r.outcome == Fail(ParamsNotDefined)
  {
    if params.None? then Report([], Fail(ParamsNotDefined), 0)
    else if !server.accepts then Report([], Fail(ConnectionFailed), 0)
    else if server.primaryKeys.None? then
      Report([Opened, QueriedPrimaryKeys, RolledBack, Closed], Fail(CatalogQueryFailed), 0)
    else if server.foreignKeys.None? then
      Report([Opened, QueriedPrimaryKeys, QueriedForeignKeys, RolledBack, Closed], Fail(CatalogQueryFailed), 0)
    else
      var phases := Phases(params.value.serialName, server.primaryKeys.value, server.foreignKeys.value,
                           server.primaryKeysLater, server.failingStatement);
      Report([Opened, QueriedPrimaryKeys, QueriedForeignKeys, SetUp] + phases.events
             + [TornDown, if phases.outcome.Pass? then Committed else RolledBack, Closed],
             phases.outcome, phases.executed)
  }

  // ---------------------------------------------------------------------------
  // Lemmas the loop methods use
  // ---------------------------------------------------------------------------

  /** Once a loop has raised at some row, the rows after it change nothing. */
  lemma {:induction false} RunPkStops(phase: PkPhase, rows: seq<PkRow>, k: nat, sent: nat, failAt: Option<nat>)
    requires k <= |rows|
    requires RunPk(phase, rows[..k], sent, failAt).outcome.Fail?
    ensures RunPk(phase, rows, sent, failAt) == RunPk(phase, rows[..k], sent, failAt)
    decreases |rows|
  {
    if k < |rows| {
      var n := |rows|;
      assert rows[..n - 1][..k] == rows[..k];
      RunPkStops(phase, rows[..n - 1], k, sent, failAt);
      RunPkAbsorbs(phase, rows, sent, failAt);
    } else {
      assert rows[..k] == rows;
    }
  }

  lemma {:induction false} RunFkStops(phase: FkPhase, rows: seq<FkRow>, k: nat, sent: nat, failAt: Option<nat>)
    requires k <= |rows|
    requires RunFk(phase, rows[..k], sent, failAt).outcome.Fail?
    ensures RunFk(phase, rows, sent, failAt) == RunFk(phase, rows[..k], sent, failAt)
    decreases |rows|
  {
    if k < |rows| {
      var n := |rows|;
      assert rows[..n - 1][..k] == rows[..k];
      RunFkStops(phase, rows[..n - 1], k, sent, failAt);
      RunFkAbsorbs(phase, rows, sent, failAt);
    } else {
      assert rows[..k] == rows;
    }
  }

  /** Sending one statement: the store either raises on it or accepts it. */
  lemma RunExec(sql: string, sent: nat, failAt: Option<nat>)
    ensures Run([Exec(sql)], sent, failAt)
            == Report([Executed(sql)], if failAt == Some(sent) then Fail(StatementFailed(sql)) else Pass, sent + 1)
  {
    assert [Exec(sql)][1..] == [];
    assert [Executed(sql)] + [] == [Executed(sql)];
  }

  /** Once the loop has failed, the last row adds nothing. */
  lemma RunPkAbsorbs(phase: PkPhase, rows: seq<PkRow>, sent: nat, failAt: Option<nat>)
    requires rows != []
    requires RunPk(phase, rows[..|rows| - 1], sent, failAt).outcome.Fail?
    ensures RunPk(phase, rows, sent, failAt) == RunPk(phase, rows[..|rows| - 1], sent, failAt)
  {
    var before := RunPk(phase, rows[..|rows| - 1], sent, failAt);
    ThenFails(before, Run(PkRowSteps(phase, rows[|rows| - 1]), before.executed, failAt));
  }

  /** Once the loop has failed, the last row adds nothing. */
  lemma RunFkAbsorbs(phase: FkPhase, rows: seq<FkRow>, sent: nat, failAt: Option<nat>)
    requires rows != []
    requires RunFk(phase, rows[..|rows| - 1], sent, failAt).outcome.Fail?
    ensures RunFk(phase, rows, sent, failAt) == RunFk(phase, rows[..|rows| - 1], sent, failAt)
  {
    var before := RunFk(phase, rows[..|rows| - 1], sent, failAt);
    ThenFails(before, Run(FkRowSteps(phase, rows[|rows| - 1]), before.executed, failAt));
  }

  /** A report that already failed absorbs whatever would have followed it. */
  lemma ThenFails(ra: Report, rb: Report)
    requires ra.outcome.Fail?
    ensures Then(ra, rb) == ra
  {
  }

  lemma EventsAssoc(a: seq<Event>, b: seq<Event>, c: seq<Event>)
    ensures a + (b + c) == (a + b) + c
  {
  }

  lemma ThreeRecorded(trace: seq<Event>, a: Event, b: Event, c: Event)
    ensures trace + [a] + [b] + [c] == trace + [a, b, c]
  {
  }

  /** Once `ra` has passed, what a connection records is its events, then those of `rb`. */
  lemma ThenAppends(trace0: seq<Event>, ra: Report, rb: Report)
    requires ra.outcome.Pass?
    ensures trace0 + Then(ra, rb).events == (trace0 + ra.events) + rb.events
  {
  }

  /** One more row whose iteration sends `sql`: the loop either raises on it or goes on. */
  lemma PkRowSends(phase: PkPhase, rows: seq<PkRow>, i: nat, sent: nat, failAt: Option<nat>, sql: string,
                   trace0: seq<Event>)
    requires i < |rows| && PkRowSteps(phase, rows[i]) == [Exec(sql)]
    requires RunPk(phase, rows[..i], sent, failAt).outcome.Pass?
    ensures var before := RunPk(phase, rows[..i], sent, failAt);
            trace0 + RunPk(phase, rows[..i + 1], sent, failAt).events == (trace0 + before.events) + [Executed(sql)]
    ensures var before := RunPk(phase, rows[..i], sent, failAt);
            RunPk(phase, rows[..i + 1], sent, failAt)
            == Report(before.events + [Executed(sql)],
                      if failAt == Some(before.executed) then Fail(StatementFailed(sql)) else Pass,
                      before.executed + 1)
  {
    assert rows[..i + 1][..i] == rows[..i];
    RunExec(sql, RunPk(phase, rows[..i], sent, failAt).executed, failAt);
  }

  /** One more row whose iteration raises `e` before sending anything. */
  lemma PkRowRaises(phase: PkPhase, rows: seq<PkRow>, i: nat, sent: nat, failAt: Option<nat>, e: Error)
    requires i < |rows| && PkRowSteps(phase, rows[i]) == [Raise(e)]
    requires RunPk(phase, rows[..i], sent, failAt).outcome.Pass?
    ensures var before := RunPk(phase, rows[..i], sent, failAt);
            RunPk(phase, rows[..i + 1], sent, failAt) == Report(before.events, Fail(e), before.executed)
  {
    assert rows[..i + 1][..i] == rows[..i];
  }

  /** One more row that the loop skips. */
  lemma PkRowSkipped(phase: PkPhase, rows: seq<PkRow>, i: nat, sent: nat, failAt: Option<nat>)
    requires i < |rows| && PkRowSteps(phase, rows[i]) == []
    requires RunPk(phase, rows[..i], sent, failAt).outcome.Pass?
    ensures RunPk(phase, rows[..i + 1], sent, failAt) == RunPk(phase, rows[..i], sent, failAt)
  {
    assert rows[..i + 1][..i] == rows[..i];
  }

  lemma FkRowSends(phase: FkPhase, rows: seq<FkRow>, i: nat, sent: nat, failAt: Option<nat>, sql: string,
                   trace0: seq<Event>)
    requires i < |rows| && FkRowSteps(phase, rows[i]) == [Exec(sql)]
    requires RunFk(phase, rows[..i], sent, failAt).outcome.Pass?
    ensures var before := RunFk(phase, rows[..i], sent, failAt);
            trace0 + RunFk(phase, rows[..i + 1], sent, failAt).events == (trace0 + before.events) + [Executed(sql)]
    ensures var before := RunFk(phase, rows[..i], sent, failAt);
            RunFk(phase, rows[..i + 1], sent, failAt)
            == Report(before.events + [Executed(sql)],
                      if failAt == Some(before.executed) then Fail(StatementFailed(sql)) else Pass,
                      before.executed + 1)
  {
    assert rows[..i + 1][..i] == rows[..i];
    RunExec(sql, RunFk(phase, rows[..i], sent, failAt).executed, failAt);
  }

  lemma FkRowSkipped(phase: FkPhase, rows: seq<FkRow>, i: nat, sent: nat, failAt: Option<nat>)
    requires i < |rows| && FkRowSteps(phase, rows[i]) == []
    requires RunFk(phase, rows[..i], sent, failAt).outcome.Pass?
    ensures RunFk(phase, rows[..i + 1], sent, failAt) == RunFk(phase, rows[..i], sent, failAt)
  {
    assert rows[..i + 1][..i] == rows[..i];
  }

  // ---------------------------------------------------------------------------
  // Running steps one after another
  // ---------------------------------------------------------------------------

  /** Running `a` then `b` is running `a`, and then, if it passed, `b` from where `a` stopped. */
  lemma {:induction false} RunAppend(a: seq<Step>, b: seq<Step>, sent: nat, failAt: Option<nat>)
    ensures Run(a + b, sent, failAt) == Then(Run(a, sent, failAt), Run(b, Run(a, sent, failAt).executed, failAt))
    decreases |a|
  {
    if a == [] {
      assert a + b == b;
    } else {
      assert (a + b)[0] == a[0];
      assert (a + b)[1..] == a[1..] + b;
      match a[0]
      case Exec(sql) =>
        if failAt != Some(sent) {
          RunAppend(a[1..], b, sent + 1, failAt);
          RunCons(a, sent, sent + 1, failAt, Executed(sql));
          RunCons(a + b, sent, sent + 1, failAt, Executed(sql));
          RunAppendCons(a[1..], b, sent + 1, failAt, Executed(sql));
        }
      case Raise(e) =>
      case Requery(answered) =>
        if answered {
          RunAppend(a[1..], b, sent, failAt);
          RunCons(a, sent, sent, failAt, QueriedPrimaryKeys);
          RunCons(a + b, sent, sent, failAt, QueriedPrimaryKeys);
          RunAppendCons(a[1..], b, sent, failAt, QueriedPrimaryKeys);
        }
    }
  }

  /** A first step that lets the run go on records `e` and continues from `next`. */
  lemma RunCons(steps: seq<Step>, sent: nat, next: nat, failAt: Option<nat>, e: Event)
    requires steps != []
    requires (steps[0].Exec? && failAt != Some(sent) && next == sent + 1 && e == Executed(steps[0].sql))
             || (steps[0] == Requery(true) && next == sent && e == QueriedPrimaryKeys)
    ensures Run(steps, sent, failAt)
            == Report([e] + Run(steps[1..], next, failAt).events, Run(steps[1..], next, failAt).outcome,
                      Run(steps[1..], next, failAt).executed)
  {
  }

  /** The step of `RunAppend` once the first step has recorded `e`. */
  lemma RunAppendCons(a: seq<Step>, b: seq<Step>, next: nat, failAt: Option<nat>, e: Event)
    requires Run(a + b, next, failAt) == Then(Run(a, next, failAt), Run(b, Run(a, next, failAt).executed, failAt))
    ensures var ra := Run(a, next, failAt);
            var ab := Run(a + b, next, failAt);
            Report([e] + ab.events, ab.outcome, ab.executed)
            == Then(Report([e] + ra.events, ra.outcome, ra.executed), Run(b, ra.executed, failAt))
  {
    var ra := Run(a, next, failAt);
    if ra.outcome.Pass? {
      EventsAssoc([e], ra.events, Run(b, ra.executed, failAt).events);
    }
  }

  lemma FlattenSnoc<T>(parts: seq<seq<T>>, i: nat)
    requires i < |parts|
    ensures Flatten(parts[..i + 1]) == Flatten(parts[..i]) + parts[i]
  {
    assert parts[..i + 1][..i] == parts[..i];
  }

  lemma {:induction false} FlattenSplit<T>(parts: seq<seq<T>>, k: nat)
    requires k <= |parts|
    ensures Flatten(parts) == Flatten(parts[..k]) + Flatten(parts[k..])
    decreases |parts|
  {
    if k == |parts| {
      assert parts[..k] == parts;
      assert parts[k..] == [];
    } else {
      var n := |parts|;
      FlattenSplit(parts[..n - 1], k);
      assert parts[..n - 1][..k] == parts[..k];
      assert parts[k..][..|parts[k..]| - 1] == parts[..n - 1][k..];
      assert parts[k..][|parts[k..]| - 1] == parts[n - 1];
    }
  }

  /** The row-by-row loop is the run of everything its rows do, one after another. */
  lemma {:induction false} RunPkIsRun(phase: PkPhase, rows: seq<PkRow>, sent: nat, failAt: Option<nat>)
    ensures RunPk(phase, rows, sent, failAt) == Run(PkSteps(phase, rows), sent, failAt)
    decreases |rows|
  {
    if rows != [] {
      var n := |rows|;
      var parts := PkParts(phase, rows);
      assert PkParts(phase, rows[..n - 1]) == parts[..n - 1];
      assert parts[..n] == parts;
      FlattenSnoc(parts, n - 1);
      RunPkIsRun(phase, rows[..n - 1], sent, failAt);
      RunAppend(PkSteps(phase, rows[..n - 1]), PkRowSteps(phase, rows[n - 1]), sent, failAt);
    }
  }

  lemma {:induction false} RunFkIsRun(phase: FkPhase, rows: seq<FkRow>, sent: nat, failAt: Option<nat>)
    ensures RunFk(phase, rows, sent, failAt) == Run(FkSteps(phase, rows), sent, failAt)
    decreases |rows|
  {
    if rows != [] {
      var n := |rows|;
      var parts := FkParts(phase, rows);
      assert FkParts(phase, rows[..n - 1]) == parts[..n - 1];
      assert parts[..n] == parts;
      FlattenSnoc(parts, n - 1);
      RunFkIsRun(phase, rows[..n - 1], sent, failAt);
      RunAppend(FkSteps(phase, rows[..n - 1]), FkRowSteps(phase, rows[n - 1]), sent, failAt);
    }
  }

  lemma RunSerialIsRun(serialName: Option<string>, copy: bool, rows: seq<PkRow>, sent: nat, failAt: Option<nat>)
    ensures RunSerial(serialName, copy, rows, sent, failAt) == Run(SerialSteps(serialName, copy, rows), sent, failAt)
  {
    if serialName.Some? {
      RunPkIsRun(if copy then CopyToSerial(serialName.value) else AddSerial(serialName.value), rows, sent, failAt);
    }
  }

  lemma RunRequeryIsRun(later: Option<seq<PkRow>>, sent: nat, failAt: Option<nat>)
    ensures RunRequery(later, sent, failAt) == Run(RequerySteps(later), sent, failAt)
  {
    if later.Some? {
      RunPkIsRun(PkToUuid, later.value, sent, failAt);
      assert RequerySteps(later)[1..] == PkSteps(PkToUuid, later.value);
    }
  }
}
