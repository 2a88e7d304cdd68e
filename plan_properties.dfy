/**
 * What the Plan module's `Run`, `Phases` and `Session` promise about every
 * session: the statements go out in the order of `execute`'s body, one per
 * catalog row, the first exception ends the phases, and tear-down and close
 * happen exactly once whatever the outcome.
 */
module PlanProperties {
  import opened Wrappers
  import opened Catalog
  import opened SqlBuilder
  import opened Plan

  // ---------------------------------------------------------------------------
  // Runs in which nothing but the store can raise
  // ---------------------------------------------------------------------------

  /** No step raises by itself: no malformed template, no missing serial name, no failed re-query. */
  predicate Clean(steps: seq<Step>)
  {
    forall i :: 0 <= i < |steps| ==> !steps[i].Raise? && steps[i] != Requery(false)
  }

  /** The events of `steps` when the store accepts every statement. */
  function Trace(steps: seq<Step>): seq<Event>
    decreases |steps|
  {
    if steps == [] then []
    else
      match steps[0]
      case Exec(sql) => [Executed(sql)] + Trace(steps[1..])
      case Raise(_) => []
      case Requery(_) => [QueriedPrimaryKeys] + Trace(steps[1..])
  }

  /** The statements `steps` send, in order, when the store accepts every one. */
  function Sqls(steps: seq<Step>): seq<string>
    decreases |steps|
  {
    if steps == [] then []
    else
      match steps[0]
      case Exec(sql) => [sql] + Sqls(steps[1..])
      case Raise(_) => []
      case Requery(_) => Sqls(steps[1..])
  }

  lemma {:induction false} TraceAppend(a: seq<Step>, b: seq<Step>)
    requires Clean(a)
    ensures Trace(a + b) == Trace(a) + Trace(b)
    ensures Sqls(a + b) == Sqls(a) + Sqls(b)
    decreases |a|
  {
    if a == [] {
      assert a + b == b;
    } else {
      assert (a + b)[0] == a[0];
      assert (a + b)[1..] == a[1..] + b;
      assert Clean(a[1..]) by {
        forall i | 0 <= i < |a[1..]| ensures !a[1..][i].Raise? && a[1..][i] != Requery(false) {
          assert a[1..][i] == a[i + 1];
        }
      }
      TraceAppend(a[1..], b);
    }
  }

  lemma CleanAppend(a: seq<Step>, b: seq<Step>)
    requires Clean(a) && Clean(b)
    ensures Clean(a + b)
  {
    forall i | 0 <= i < |a + b| ensures !(a + b)[i].Raise? && (a + b)[i] != Requery(false) {
      if i < |a| { assert (a + b)[i] == a[i]; } else { assert (a + b)[i] == b[i - |a|]; }
    }
  }

  lemma CleanTail(steps: seq<Step>)
    requires Clean(steps) && steps != []
    ensures Clean(steps[1..]) && steps[0] != Requery(false) && !steps[0].Raise?
  {
    forall i | 0 <= i < |steps[1..]| ensures !steps[1..][i].Raise? && steps[1..][i] != Requery(false) {
      assert steps[1..][i] == steps[i + 1];
    }
  }

  lemma PrefixCons(steps: seq<Step>, j: nat)
    requires 0 < j < |steps|
    ensures steps[..j + 1] != [] && steps[..j + 1][0] == steps[0] && steps[..j + 1][1..] == steps[1..][..j]
  {
  }

  lemma StopsAtFirst(steps: seq<Step>, sql: string)
    requires steps != [] && steps[0] == Exec(sql)
    ensures Sqls(steps[..1]) == [sql] == Sqls(steps)[..1] && Trace(steps[..1]) == [Executed(sql)]
  {
    assert steps[..1] == [Exec(sql)];
    assert steps[..1][1..] == [];
  }

  /** A clean run passes, with its whole trace, unless the store raises on one of its statements. */
  lemma {:induction false} RunCleanPasses(steps: seq<Step>, sent: nat, failAt: Option<nat>)
    requires Clean(steps)
    requires failAt.None? || failAt.value < sent || failAt.value >= sent + |Sqls(steps)|
    ensures Run(steps, sent, failAt) == Report(Trace(steps), Pass, sent + |Sqls(steps)|)
    decreases |steps|
  {
    if steps != [] {
      CleanTail(steps);
      RunCleanPasses(steps[1..], if steps[0].Exec? then sent + 1 else sent, failAt);
    }
  }

  /**
   * The store raised on the statement numbered `failAt`, which is step `j`: the
   * run ended right after sending it, having recorded exactly the trace up to it.
   */
  predicate StopsAfter(steps: seq<Step>, sent: nat, failAt: nat, j: int)
    requires sent <= failAt < sent + |Sqls(steps)|
  {
    0 <= j < |steps| && steps[j] == Exec(Sqls(steps)[failAt - sent])
    && Sqls(steps[..j + 1]) == Sqls(steps)[..failAt - sent + 1]
    && Run(steps, sent, Some(failAt))
       == Report(Trace(steps[..j + 1]), Fail(StatementFailed(Sqls(steps)[failAt - sent])), failAt + 1)
  }

  /** When the store raises on one of a clean run's statements, the run stops right after it. */
  lemma {:induction false} RunCleanStops(steps: seq<Step>, sent: nat, failAt: nat)
    requires Clean(steps)
    requires sent <= failAt < sent + |Sqls(steps)|
    ensures exists j :: StopsAfter(steps, sent, failAt, j)
    decreases |steps|
  {
    var rest := steps[1..];
    CleanTail(steps);
    match steps[0]
    case Exec(sql) =>
      if failAt == sent {
        StopsAtFirst(steps, sql);
        assert StopsAfter(steps, sent, failAt, 0);
      } else {
        RunCleanStops(rest, sent + 1, failAt);
        var j :| StopsAfter(rest, sent + 1, failAt, j);
        StopsAfterExec(steps, sent, failAt, sql, j);
      }
    case Requery(answered) =>
      RunCleanStops(rest, sent, failAt);
      var j :| StopsAfter(rest, sent, failAt, j);
      StopsAfterRequery(steps, sent, failAt, j);
  }

  lemma StopsAfterExec(steps: seq<Step>, sent: nat, failAt: nat, sql: string, j: int)
    requires steps != [] && steps[0] == Exec(sql) && sent < failAt
    requires sent + 1 <= failAt < sent + 1 + |Sqls(steps[1..])|
    requires StopsAfter(steps[1..], sent + 1, failAt, j)
    ensures sent <= failAt < sent + |Sqls(steps)|
    ensures StopsAfter(steps, sent, failAt, j + 1)
  {
    var rest := steps[1..];
    PrefixCons(steps, j + 1);
    assert Sqls(steps)[..failAt - sent + 1] == [sql] + Sqls(rest)[..failAt - sent];
  }

  lemma StopsAfterRequery(steps: seq<Step>, sent: nat, failAt: nat, j: int)
    requires steps != [] && steps[0] == Requery(true)
    requires sent <= failAt < sent + |Sqls(steps[1..])|
    requires StopsAfter(steps[1..], sent, failAt, j)
    ensures sent <= failAt < sent + |Sqls(steps)|
    ensures StopsAfter(steps, sent, failAt, j + 1)
  {
    PrefixCons(steps, j + 1);
  }

  // ---------------------------------------------------------------------------
  // The phases as one run
  // ---------------------------------------------------------------------------

  /** The phases chained with `Then` are the run of all their steps, one after another. */
  lemma PhasesIsRun(serialName: Option<string>, pks: seq<PkRow>, fks: seq<FkRow>,
                    later: Option<seq<PkRow>>, failAt: Option<nat>)
    ensures Phases(serialName, pks, fks, later, failAt) == Run(PhaseSteps(serialName, pks, fks, later), 0, failAt)
  {
    var s1 := PkSteps(AddTemp, pks);
    RunPkIsRun(AddTemp, pks, 0, failAt);
    var r1 := Run(s1, 0, failAt);
    var s2 := s1 + PkSteps(AssignTemp, pks);
    RunPkIsRun(AssignTemp, pks, r1.executed, failAt);
    RunAppend(s1, PkSteps(AssignTemp, pks), 0, failAt);
    var r2 := Run(s2, 0, failAt);
    var s3 := s2 + SerialSteps(serialName, false, pks);
    RunSerialIsRun(serialName, false, pks, r2.executed, failAt);
    RunAppend(s2, SerialSteps(serialName, false, pks), 0, failAt);
    var r3 := Run(s3, 0, failAt);
    var s4 := s3 + SerialSteps(serialName, true, pks);
    RunSerialIsRun(serialName, true, pks, r3.executed, failAt);
    RunAppend(s3, SerialSteps(serialName, true, pks), 0, failAt);
    var r4 := Run(s4, 0, failAt);
    var s5 := s4 + FkSteps(DropFk, fks);
    RunFkIsRun(DropFk, fks, r4.executed, failAt);
    RunAppend(s4, FkSteps(DropFk, fks), 0, failAt);
    var r5 := Run(s5, 0, failAt);
    var s6 := s5 + FkSteps(RetypeFk("varchar"), fks);
    RunFkIsRun(RetypeFk("varchar"), fks, r5.executed, failAt);
    RunAppend(s5, FkSteps(RetypeFk("varchar"), fks), 0, failAt);
    var r6 := Run(s6, 0, failAt);
    var s7 := s6 + FkSteps(PropagateToFk, fks);
    RunFkIsRun(PropagateToFk, fks, r6.executed, failAt);
    RunAppend(s6, FkSteps(PropagateToFk, fks), 0, failAt);
    var r7 := Run(s7, 0, failAt);
    var s8 := s7 + FkSteps(RetypeFk("uuid"), fks);
    RunFkIsRun(RetypeFk("uuid"), fks, r7.executed, failAt);
    RunAppend(s7, FkSteps(RetypeFk("uuid"), fks), 0, failAt);
    var r8 := Run(s8, 0, failAt);
    var s9 := s8 + RequerySteps(later);
    RunRequeryIsRun(later, r8.executed, failAt);
    RunAppend(s8, RequerySteps(later), 0, failAt);
    var r9 := Run(s9, 0, failAt);
    var s10 := s9 + PkSteps(TempToPk, pks);
    RunPkIsRun(TempToPk, pks, r9.executed, failAt);
    RunAppend(s9, PkSteps(TempToPk, pks), 0, failAt);
    var r10 := Run(s10, 0, failAt);
    RunFkIsRun(RecreateFk, fks, r10.executed, failAt);
    RunAppend(s10, FkSteps(RecreateFk, fks), 0, failAt);
  }

  // ---------------------------------------------------------------------------
  // Steps and the statements they send
  // ---------------------------------------------------------------------------

  /** The text of each statement, in order. */
  function SqlTexts(statements: seq<Statement>): seq<string>
  {
    seq(|statements|, i requires 0 <= i < |statements| => Sql(statements[i]))
  }

  /** The events of sending each statement, in order. */
  function Sent(statements: seq<Statement>): seq<Event>
  {
    seq(|statements|, i requires 0 <= i < |statements| => Executed(Sql(statements[i])))
  }

  /** Sending statements raises nothing by itself, records them and sends their texts. */
  lemma {:induction false} ExecsRun(statements: seq<Statement>)
    ensures Clean(Execs(statements))
    ensures Trace(Execs(statements)) == Sent(statements)
    ensures Sqls(Execs(statements)) == SqlTexts(statements)
    decreases |statements|
  {
    if statements != [] {
      ExecsRun(statements[1..]);
      assert Execs(statements)[1..] == Execs(statements[1..]);
      assert Sent(statements) == [Executed(Sql(statements[0]))] + Sent(statements[1..]);
      assert SqlTexts(statements) == [Sql(statements[0])] + SqlTexts(statements[1..]);
    }
  }

  lemma ExecsAppend(a: seq<Statement>, b: seq<Statement>)
    ensures Execs(a + b) == Execs(a) + Execs(b)
  {
  }

  /** Every primary-key row's schema, table and column names are free of braces. */
  predicate BraceFree(rows: seq<PkRow>)
  {
    forall i :: 0 <= i < |rows| ==>
      NoBraces(rows[i].tableSchema) && NoBraces(rows[i].tableName) && NoBraces(rows[i].columnName)
  }

  lemma BraceFreePrefix(rows: seq<PkRow>, k: nat)
    requires BraceFree(rows) && k <= |rows|
    ensures BraceFree(rows[..k])
  {
    assert forall i :: 0 <= i < k ==> rows[..k][i] == rows[i];
  }

  /** With brace-free names, `format` turns the temp-column update into the plain `gen_random_uuid()` update. */
  lemma AssignStepPlain(row: PkRow)
    requires NoBraces(row.tableSchema) && NoBraces(row.tableName) && NoBraces(row.columnName)
    ensures AssignStep(row)
            == Exec(Sql(UpdateColumn(TableName(row.tableSchema, row.tableName), TempColumnName(row.columnName), RandomUuid)))
  {
    NoBracesConcat(row.tableSchema, ".");
    NoBracesConcat(row.tableSchema + ".", row.tableName);
    assert NoBraces(TempSuffix);
    NoBracesConcat(row.columnName, TempSuffix);
    PrimaryKeyUpdateCommandFillsPlaceholder(TableName(row.tableSchema, row.tableName), TempColumnName(row.columnName));
  }

  /** Each loop iteration sends the texts of exactly the statements it means. */
  lemma PkRowStepsAreExecs(phase: PkPhase, row: PkRow)
    requires phase.AssignTemp? ==> NoBraces(row.tableSchema) && NoBraces(row.tableName) && NoBraces(row.columnName)
    ensures PkRowSteps(phase, row) == Execs(PkRowStatements(phase, row))
  {
    if phase.AssignTemp? {
      AssignStepPlain(row);
    }
  }

  lemma FkRowStepsAreExecs(phase: FkPhase, row: FkRow)
    ensures FkRowSteps(phase, row) == Execs(FkRowStatements(phase, row))
  {
  }

  lemma PkSnoc(phase: PkPhase, rows: seq<PkRow>)
    requires rows != []
    ensures PkSteps(phase, rows) == PkSteps(phase, rows[..|rows| - 1]) + PkRowSteps(phase, rows[|rows| - 1])
    ensures PkStatements(phase, rows)
            == PkStatements(phase, rows[..|rows| - 1]) + PkRowStatements(phase, rows[|rows| - 1])
  {
    var n := |rows|;
    assert PkParts(phase, rows[..n - 1]) == PkParts(phase, rows)[..n - 1];
    assert PkStatementParts(phase, rows[..n - 1]) == PkStatementParts(phase, rows)[..n - 1];
  }

  lemma FkSnoc(phase: FkPhase, rows: seq<FkRow>)
    requires rows != []
    ensures FkSteps(phase, rows) == FkSteps(phase, rows[..|rows| - 1]) + FkRowSteps(phase, rows[|rows| - 1])
    ensures FkStatements(phase, rows)
            == FkStatements(phase, rows[..|rows| - 1]) + FkRowStatements(phase, rows[|rows| - 1])
  {
    var n := |rows|;
    assert FkParts(phase, rows[..n - 1]) == FkParts(phase, rows)[..n - 1];
    assert FkStatementParts(phase, rows[..n - 1]) == FkStatementParts(phase, rows)[..n - 1];
  }

  /** A primary-key phase sends the texts of its statements, row after row. */
  lemma {:induction false} PkStepsAreExecs(phase: PkPhase, rows: seq<PkRow>)
    requires phase.AssignTemp? ==> BraceFree(rows)
    ensures PkSteps(phase, rows) == Execs(PkStatements(phase, rows))
    decreases |rows|
  {
    if rows != [] {
      var n := |rows|;
      PkSnoc(phase, rows);
      if phase.AssignTemp? {
        BraceFreePrefix(rows, n - 1);
      }
      PkStepsAreExecs(phase, rows[..n - 1]);
      PkRowStepsAreExecs(phase, rows[n - 1]);
      ExecsAppend(PkStatements(phase, rows[..n - 1]), PkRowStatements(phase, rows[n - 1]));
    }
  }

  /** A foreign-key phase sends the texts of its statements, row after row. */
  lemma {:induction false} FkStepsAreExecs(phase: FkPhase, rows: seq<FkRow>)
    ensures FkSteps(phase, rows) == Execs(FkStatements(phase, rows))
    decreases |rows|
  {
    if rows != [] {
      var n := |rows|;
      FkSnoc(phase, rows);
      FkStepsAreExecs(phase, rows[..n - 1]);
      FkRowStepsAreExecs(phase, rows[n - 1]);
      ExecsAppend(FkStatements(phase, rows[..n - 1]), FkRowStatements(phase, rows[n - 1]));
    }
  }

  // ---------------------------------------------------------------------------
  // One statement per row, and the rows the retype phases skip
  // ---------------------------------------------------------------------------

  /** Parts of exactly one element each flatten to those elements, in order. */
  lemma {:induction false} FlattenSingletons<T>(parts: seq<seq<T>>)
    requires forall i :: 0 <= i < |parts| ==> |parts[i]| == 1
    ensures |Flatten(parts)| == |parts|
    ensures forall i :: 0 <= i < |parts| ==> Flatten(parts)[i] == parts[i][0]
    decreases |parts|
  {
    if parts != [] {
      var n := |parts|;
      FlattenSingletons(parts[..n - 1]);
      assert forall i :: 0 <= i < n - 1 ==> parts[..n - 1][i] == parts[i];
    }
  }

  lemma PkRowSingle(phase: PkPhase, row: PkRow)
    requires !phase.PkToUuid?
    ensures |PkRowStatements(phase, row)| == 1
  {
  }

  lemma FkRowSingle(phase: FkPhase, row: FkRow)
    requires !phase.RetypeFk?
    ensures |FkRowStatements(phase, row)| == 1
  {
  }

  /** A primary-key phase that skips no row means one statement per row, the i-th for the i-th row. */
  lemma PkOnePerRow(phase: PkPhase, rows: seq<PkRow>)
    requires !phase.PkToUuid?
    ensures |PkStatements(phase, rows)| == |rows|
    ensures forall i :: 0 <= i < |rows| ==> [PkStatements(phase, rows)[i]] == PkRowStatements(phase, rows[i])
  {
    var parts := PkStatementParts(phase, rows);
    forall i | 0 <= i < |parts| ensures |parts[i]| == 1 {
      PkRowSingle(phase, rows[i]);
    }
    FlattenSingletons(parts);
    forall i | 0 <= i < |rows| ensures [PkStatements(phase, rows)[i]] == PkRowStatements(phase, rows[i]) {
      assert [parts[i][0]] == parts[i];
    }
  }

  /** A foreign-key phase that skips no row means one statement per row, the i-th for the i-th row. */
  lemma FkOnePerRow(phase: FkPhase, rows: seq<FkRow>)
    requires !phase.RetypeFk?
    ensures |FkStatements(phase, rows)| == |rows|
    ensures forall i :: 0 <= i < |rows| ==> [FkStatements(phase, rows)[i]] == FkRowStatements(phase, rows[i])
  {
    var parts := FkStatementParts(phase, rows);
    forall i | 0 <= i < |parts| ensures |parts[i]| == 1 {
      FkRowSingle(phase, rows[i]);
    }
    FlattenSingletons(parts);
    forall i | 0 <= i < |rows| ensures [FkStatements(phase, rows)[i]] == FkRowStatements(phase, rows[i]) {
      assert [parts[i][0]] == parts[i];
    }
  }

  /** The primary keys not yet of type uuid, in catalog order. */
  function NotUuid(rows: seq<PkRow>): seq<PkRow>
    decreases |rows|
  {
    if rows == [] then []
    else
      var last := rows[|rows| - 1];
      NotUuid(rows[..|rows| - 1]) + (if last.dataType == "uuid" then [] else [last])
  }

  /** A row is kept exactly when it is one of the rows and not already a uuid. */
  lemma {:induction false} NotUuidMembers(rows: seq<PkRow>, row: PkRow)
    ensures row in NotUuid(rows) <==> row in rows && row.dataType != "uuid"
    decreases |rows|
  {
    if rows != [] {
      var n := |rows|;
      NotUuidMembers(rows[..n - 1], row);
      assert rows == rows[..n - 1] + [rows[n - 1]];
    }
  }

  /** The uuid cast is sent for exactly the rows not already of type uuid, in order. */
  lemma {:induction false} PkToUuidSkips(rows: seq<PkRow>)
    ensures var targets := NotUuid(rows);
            PkStatements(PkToUuid, rows)
            == seq(|targets|, i requires 0 <= i < |targets| =>
                     AlterPkColumnToUuid(TableName(targets[i].tableSchema, targets[i].tableName), targets[i].columnName))
    decreases |rows|
  {
    if rows != [] {
      var n := |rows|;
      PkSnoc(PkToUuid, rows);
      PkToUuidSkips(rows[..n - 1]);
    }
  }

  /** The foreign keys not already of type `dataType`, in catalog order. */
  function NotOfType(rows: seq<FkRow>, dataType: string): seq<FkRow>
    decreases |rows|
  {
    if rows == [] then []
    else
      var last := rows[|rows| - 1];
      NotOfType(rows[..|rows| - 1], dataType) + (if last.dataType == dataType then [] else [last])
  }

  /** A row is kept exactly when it is one of the rows and not already of the type. */
  lemma {:induction false} NotOfTypeMembers(rows: seq<FkRow>, dataType: string, row: FkRow)
    ensures row in NotOfType(rows, dataType) <==> row in rows && row.dataType != dataType
    decreases |rows|
  {
    if rows != [] {
      var n := |rows|;
      NotOfTypeMembers(rows[..n - 1], dataType, row);
      assert rows == rows[..n - 1] + [rows[n - 1]];
    }
  }

  /** The retype is sent for exactly the foreign keys not already of the type, in order. */
  lemma {:induction false} RetypeFkSkips(rows: seq<FkRow>, dataType: string)
    ensures var targets := NotOfType(rows, dataType);
            FkStatements(RetypeFk(dataType), rows)
            == seq(|targets|, i requires 0 <= i < |targets| =>
                     AlterColumnDatatype(TableName(targets[i].tableSchema, targets[i].tableName),
                                         targets[i].columnName, dataType))
    decreases |rows|
  {
    if rows != [] {
      var n := |rows|;
      FkSnoc(RetypeFk(dataType), rows);
      RetypeFkSkips(rows[..n - 1], dataType);
    }
  }

  // ---------------------------------------------------------------------------
  // Whole sessions
  // ---------------------------------------------------------------------------

  /** What the phases before the primary-key re-query mean to do, in the order of `execute`. */
  function EarlyStatements(serialName: string, pks: seq<PkRow>, fks: seq<FkRow>): seq<Statement>
  {
    PkStatements(AddTemp, pks)
    + PkStatements(AssignTemp, pks)
    + PkStatements(AddSerial(serialName), pks)
    + PkStatements(CopyToSerial(serialName), pks)
    + FkStatements(DropFk, fks)
    + FkStatements(RetypeFk("varchar"), fks)
    + FkStatements(PropagateToFk, fks)
    + FkStatements(RetypeFk("uuid"), fks)
  }

  /** What the phases from the re-query on mean to do; the uuid cast loops over the re-queried rows. */
  function LateStatements(later: seq<PkRow>, pks: seq<PkRow>, fks: seq<FkRow>): seq<Statement>
  {
    PkStatements(PkToUuid, later) + PkStatements(TempToPk, pks) + FkStatements(RecreateFk, fks)
  }

  lemma EarlySteps(serialName: string, pks: seq<PkRow>, fks: seq<FkRow>)
    requires BraceFree(pks)
    ensures PkSteps(AddTemp, pks) + PkSteps(AssignTemp, pks)
            + SerialSteps(Some(serialName), false, pks) + SerialSteps(Some(serialName), true, pks)
            + FkSteps(DropFk, fks) + FkSteps(RetypeFk("varchar"), fks)
            + FkSteps(PropagateToFk, fks) + FkSteps(RetypeFk("uuid"), fks)
            == Execs(EarlyStatements(serialName, pks, fks))
  {
    var a := PkStatements(AddTemp, pks);
    var b := PkStatements(AssignTemp, pks);
    var c := PkStatements(AddSerial(serialName), pks);
    var d := PkStatements(CopyToSerial(serialName), pks);
    var e := FkStatements(DropFk, fks);
    var f := FkStatements(RetypeFk("varchar"), fks);
    var g := FkStatements(PropagateToFk, fks);
    var h := FkStatements(RetypeFk("uuid"), fks);
    PkStepsAreExecs(AddTemp, pks);
    PkStepsAreExecs(AssignTemp, pks);
    PkStepsAreExecs(AddSerial(serialName), pks);
    PkStepsAreExecs(CopyToSerial(serialName), pks);
    FkStepsAreExecs(DropFk, fks);
    FkStepsAreExecs(RetypeFk("varchar"), fks);
    FkStepsAreExecs(PropagateToFk, fks);
    FkStepsAreExecs(RetypeFk("uuid"), fks);
    ExecsAppend(a, b);
    ExecsAppend(a + b, c);
    ExecsAppend(a + b + c, d);
    ExecsAppend(a + b + c + d, e);
    ExecsAppend(a + b + c + d + e, f);
    ExecsAppend(a + b + c + d + e + f, g);
    ExecsAppend(a + b + c + d + e + f + g, h);
  }

  lemma LateSteps(later: seq<PkRow>, pks: seq<PkRow>, fks: seq<FkRow>)
    ensures PkSteps(PkToUuid, later) + PkSteps(TempToPk, pks) + FkSteps(RecreateFk, fks)
            == Execs(LateStatements(later, pks, fks))
  {
    var a := PkStatements(PkToUuid, later);
    var b := PkStatements(TempToPk, pks);
    var c := FkStatements(RecreateFk, fks);
    PkStepsAreExecs(PkToUuid, later);
    PkStepsAreExecs(TempToPk, pks);
    FkStepsAreExecs(RecreateFk, fks);
    ExecsAppend(a, b);
    ExecsAppend(a + b, c);
  }

  /** With a serial name, a re-query that answers and brace-free key names, the phases send these statements. */
  lemma PhaseStepsAreStatements(serialName: string, pks: seq<PkRow>, fks: seq<FkRow>, later: seq<PkRow>)
    requires BraceFree(pks)
    ensures PhaseSteps(Some(serialName), pks, fks, Some(later))
            == Execs(EarlyStatements(serialName, pks, fks)) + [Requery(true)] + Execs(LateStatements(later, pks, fks))
  {
    EarlySteps(serialName, pks, fks);
    LateSteps(later, pks, fks);
    var early := PkSteps(AddTemp, pks) + PkSteps(AssignTemp, pks)
                 + SerialSteps(Some(serialName), false, pks) + SerialSteps(Some(serialName), true, pks)
                 + FkSteps(DropFk, fks) + FkSteps(RetypeFk("varchar"), fks)
                 + FkSteps(PropagateToFk, fks) + FkSteps(RetypeFk("uuid"), fks);
    var u := PkSteps(PkToUuid, later);
    var t := PkSteps(TempToPk, pks);
    var r := FkSteps(RecreateFk, fks);
    assert PhaseSteps(Some(serialName), pks, fks, Some(later)) == early + ([Requery(true)] + u) + t + r;
    calc {
      early + ([Requery(true)] + u) + t + r;
      { StepsAssoc(early, [Requery(true)], u); }
      early + [Requery(true)] + u + t + r;
      { StepsAssoc(early + [Requery(true)], u, t); }
      early + [Requery(true)] + (u + t) + r;
      { StepsAssoc(early + [Requery(true)], u + t, r); }
      early + [Requery(true)] + (u + t + r);
    }
  }

  lemma StepsAssoc(a: seq<Step>, b: seq<Step>, c: seq<Step>)
    ensures a + (b + c) == a + b + c
  {
  }

  lemma RequeryStep()
    ensures Clean([Requery(true)]) && Trace([Requery(true)]) == [QueriedPrimaryKeys] && Sqls([Requery(true)]) == []
  {
    assert [Requery(true)][1..] == [];
  }

  /** Two batches of statements with the re-query between them: clean, and what they record and send. */
  lemma AroundRequery(early: seq<Statement>, late: seq<Statement>)
    ensures var steps := Execs(early) + [Requery(true)] + Execs(late);
            Clean(steps)
            && Trace(steps) == Sent(early) + [QueriedPrimaryKeys] + Sent(late)
            && Sqls(steps) == SqlTexts(early + late)
  {
    ExecsRun(early);
    ExecsRun(late);
    var q: seq<Step> := [Requery(true)];
    RequeryStep();
    CleanAppend(Execs(early), q);
    CleanAppend(Execs(early) + q, Execs(late));
    TraceAppend(Execs(early), q);
    TraceAppend(Execs(early) + q, Execs(late));
    SqlTextsAppend(early, late);
  }

  lemma SqlTextsAppend(a: seq<Statement>, b: seq<Statement>)
    ensures SqlTexts(a) + SqlTexts(b) == SqlTexts(a + b)
  {
  }

  /** The events a session records from connecting up to the first phase. */
  const Loaded: seq<Event> := [Opened, QueriedPrimaryKeys, QueriedForeignKeys, SetUp]

  /**
   * When the store never raises (or only on a statement the phases never
   * reach), the phases send every statement of every phase in the order of
   * `execute`'s body, with the primary-key re-query between the foreign-key
   * retype and the uuid cast.
   */
  lemma PhasesComplete(name: string, pks: seq<PkRow>, fks: seq<FkRow>, later: seq<PkRow>, failAt: Option<nat>)
    requires BraceFree(pks)
    requires failAt.None? || failAt.value >= |EarlyStatements(name, pks, fks)| + |LateStatements(later, pks, fks)|
    ensures var early, late := EarlyStatements(name, pks, fks), LateStatements(later, pks, fks);
            Phases(Some(name), pks, fks, Some(later), failAt)
            == Report(Sent(early) + [QueriedPrimaryKeys] + Sent(late), Pass, |early| + |late|)
  {
    var early, late := EarlyStatements(name, pks, fks), LateStatements(later, pks, fks);
    PhasesIsRun(Some(name), pks, fks, Some(later), failAt);
    PhaseStepsAreStatements(name, pks, fks, later);
    AroundRequery(early, late);
    RunCleanPasses(Execs(early) + [Requery(true)] + Execs(late), 0, failAt);
  }

  /** The same, for the whole session: it then tears down, commits and closes. */
  lemma SessionCompletes(params: Option<Params>, server: Server)
    requires params.Some? && params.value.serialName.Some? && server.accepts
    requires server.primaryKeys.Some? && server.foreignKeys.Some? && server.primaryKeysLater.Some?
    requires BraceFree(server.primaryKeys.value)
    requires var n := |EarlyStatements(params.value.serialName.value, server.primaryKeys.value, server.foreignKeys.value)|
                      + |LateStatements(server.primaryKeysLater.value, server.primaryKeys.value, server.foreignKeys.value)|;
             server.failingStatement.None? || server.failingStatement.value >= n
    ensures var early := EarlyStatements(params.value.serialName.value, server.primaryKeys.value, server.foreignKeys.value);
            var late := LateStatements(server.primaryKeysLater.value, server.primaryKeys.value, server.foreignKeys.value);
            Session(params, server)
            == Report(Loaded + (Sent(early) + [QueriedPrimaryKeys] + Sent(late)) + [TornDown, Committed, Closed],
                      Pass, |early| + |late|)
  {
    PhasesComplete(params.value.serialName.value, server.primaryKeys.value, server.foreignKeys.value,
                   server.primaryKeysLater.value, server.failingStatement);
  }

  lemma CleanPrefix(steps: seq<Step>, k: nat)
    requires Clean(steps) && k <= |steps|
    ensures Clean(steps[..k])
  {
    assert forall i :: 0 <= i < k ==> steps[..k][i] == steps[i];
  }

  /** Up to a statement, a clean run records a prefix of its trace that ends with that statement. */
  lemma TraceUpTo(steps: seq<Step>, j: nat)
    requires Clean(steps) && j < |steps| && steps[j].Exec?
    ensures var t := Trace(steps[..j + 1]);
            0 < |t| <= |Trace(steps)| && t == Trace(steps)[..|t|] && t[|t| - 1] == Executed(steps[j].sql)
  {
    CleanPrefix(steps, j + 1);
    CleanPrefix(steps, j);
    assert steps == steps[..j + 1] + steps[j + 1..];
    TraceAppend(steps[..j + 1], steps[j + 1..]);
    assert steps[..j + 1] == steps[..j] + [steps[j]];
    TraceAppend(steps[..j], [steps[j]]);
    assert [steps[j]][1..] == [];
  }

  /**
   * When the store raises on statement number `k` of the session, the phases
   * end right after sending it: they record the complete session's trace up to
   * that statement and no further, and report that statement's failure.
   */
  lemma PhasesStopAt(name: string, pks: seq<PkRow>, fks: seq<FkRow>, later: seq<PkRow>, k: nat)
    requires BraceFree(pks)
    requires k < |EarlyStatements(name, pks, fks)| + |LateStatements(later, pks, fks)|
    ensures var early, late := EarlyStatements(name, pks, fks), LateStatements(later, pks, fks);
            var trace := Sent(early) + [QueriedPrimaryKeys] + Sent(late);
            var r := Phases(Some(name), pks, fks, Some(later), Some(k));
            r.outcome == Fail(StatementFailed(Sql((early + late)[k]))) && r.executed == k + 1
            && exists m :: 0 < m <= |trace| && trace[m - 1] == Executed(Sql((early + late)[k])) && r.events == trace[..m]
  {
    var early, late := EarlyStatements(name, pks, fks), LateStatements(later, pks, fks);
    PhasesIsRun(Some(name), pks, fks, Some(later), Some(k));
    PhaseStepsAreStatements(name, pks, fks, later);
    RequeryRunStops(early, late, k);
  }

  /** Two batches of statements with the re-query between them, when the store raises on number `k`. */
  lemma RequeryRunStops(early: seq<Statement>, late: seq<Statement>, k: nat)
    requires k < |early| + |late|
    ensures var trace := Sent(early) + [QueriedPrimaryKeys] + Sent(late);
            var r := Run(Execs(early) + [Requery(true)] + Execs(late), 0, Some(k));
            r.outcome == Fail(StatementFailed(Sql((early + late)[k]))) && r.executed == k + 1
            && exists m :: 0 < m <= |trace| && trace[m - 1] == Executed(Sql((early + late)[k])) && r.events == trace[..m]
  {
    var steps := Execs(early) + [Requery(true)] + Execs(late);
    AroundRequery(early, late);
    RunCleanStops(steps, 0, k);
    var j :| StopsAfter(steps, 0, k, j);
    TraceUpTo(steps, j);
    var m := |Trace(steps[..j + 1])|;
    assert Trace(steps)[m - 1] == Executed(Sql((early + late)[k]));
  }

  /** The same, for the whole session: it then tears down, rolls back and closes. */
  lemma SessionStopsAt(params: Option<Params>, server: Server)
    requires params.Some? && params.value.serialName.Some? && server.accepts
    requires server.primaryKeys.Some? && server.foreignKeys.Some? && server.primaryKeysLater.Some?
    requires BraceFree(server.primaryKeys.value)
    requires server.failingStatement.Some?
    requires server.failingStatement.value
             < |EarlyStatements(params.value.serialName.value, server.primaryKeys.value, server.foreignKeys.value)|
               + |LateStatements(server.primaryKeysLater.value, server.primaryKeys.value, server.foreignKeys.value)|
    ensures var early := EarlyStatements(params.value.serialName.value, server.primaryKeys.value, server.foreignKeys.value);
            var late := LateStatements(server.primaryKeysLater.value, server.primaryKeys.value, server.foreignKeys.value);
            var k := server.failingStatement.value;
            var trace := Sent(early) + [QueriedPrimaryKeys] + Sent(late);
            var r := Session(params, server);
            r.outcome == Fail(StatementFailed(Sql((early + late)[k]))) && r.executed == k + 1
            && exists m :: 0 < m <= |trace| && trace[m - 1] == Executed(Sql((early + late)[k]))
                           && r.events == Loaded + trace[..m] + [TornDown, RolledBack, Closed]
  {
    var name, pks, fks, later := params.value.serialName.value, server.primaryKeys.value,
                                 server.foreignKeys.value, server.primaryKeysLater.value;
    var early, late := EarlyStatements(name, pks, fks), LateStatements(later, pks, fks);
    var trace := Sent(early) + [QueriedPrimaryKeys] + Sent(late);
    var k := server.failingStatement.value;
    PhasesStopAt(name, pks, fks, later, k);
    var r := Phases(Some(name), pks, fks, Some(later), Some(k));
    var m :| 0 < m <= |trace| && trace[m - 1] == Executed(Sql((early + late)[k])) && r.events == trace[..m];
    assert Session(params, server).events == Loaded + trace[..m] + [TornDown, RolledBack, Closed];
  }

  /** A run records only the statements it sends and the primary-key re-queries. */
  lemma {:induction false} RunEventKinds(steps: seq<Step>, sent: nat, failAt: Option<nat>)
    ensures forall e :: e in Run(steps, sent, failAt).events ==> e.Executed? || e == QueriedPrimaryKeys
    decreases |steps|
  {
    if steps != [] {
      match steps[0]
      case Exec(_) => RunEventKinds(steps[1..], sent + 1, failAt);
      case Raise(_) =>
      case Requery(_) => RunEventKinds(steps[1..], sent, failAt);
    }
  }

  lemma PhasesEventKinds(name: Option<string>, pks: seq<PkRow>, fks: seq<FkRow>,
                         later: Option<seq<PkRow>>, failAt: Option<nat>)
    ensures forall e :: e in Phases(name, pks, fks, later, failAt).events ==> e.Executed? || e == QueriedPrimaryKeys
  {
    PhasesIsRun(name, pks, fks, later, failAt);
    RunEventKinds(PhaseSteps(name, pks, fks, later), 0, failAt);
  }

  /** Statements and re-queries between set-up and tear-down, then the ending and close. */
  lemma Bracketed(mid: seq<Event>, last: Event)
    requires forall e :: e in mid ==> e.Executed? || e == QueriedPrimaryKeys
    requires last == Committed || last == RolledBack
    ensures var ev := Loaded + mid + [TornDown, last, Closed];
            ev[0] == Opened && ev[3] == SetUp && ev[|ev| - 3] == TornDown && ev[|ev| - 1] == Closed
            && multiset(ev)[Opened] == 1 && multiset(ev)[SetUp] == 1 && multiset(ev)[TornDown] == 1
            && multiset(ev)[Closed] == 1
            && multiset(ev)[last] == 1 && multiset(ev)[if last == Committed then RolledBack else Committed] == 0
    ensures var ev := Loaded + mid + [TornDown, last, Closed];
            forall k :: 0 <= k < |ev| && ev[k].Executed? ==> 3 < k < |ev| - 3
  {
    var other := if last == Committed then RolledBack else Committed;
    var tail := [TornDown, last, Closed];
    assert TornDown !in mid && Opened !in mid && Closed !in mid && SetUp !in mid;
    assert Committed !in mid && RolledBack !in mid;
    assert multiset(Loaded + mid + tail) == multiset(Loaded) + multiset(mid) + multiset(tail);
    assert multiset(mid)[Opened] == multiset(mid)[SetUp] == multiset(mid)[TornDown] == multiset(mid)[Closed] == 0;
    assert multiset(mid)[last] == multiset(mid)[other] == 0;
    assert multiset(Loaded) == multiset{Opened, QueriedPrimaryKeys, QueriedForeignKeys, SetUp};
    assert multiset(tail) == multiset{TornDown, last, Closed};
    BracketedOrder(mid, last);
  }

  lemma BracketedOrder(mid: seq<Event>, last: Event)
    requires forall e :: e in mid ==> e.Executed? || e == QueriedPrimaryKeys
    requires last == Committed || last == RolledBack
    ensures var ev := Loaded + mid + [TornDown, last, Closed];
            forall k :: 0 <= k < |ev| && ev[k].Executed? ==> 3 < k < |ev| - 3
  {
    var tail := [TornDown, last, Closed];
    var ev := Loaded + mid + tail;
    forall k | 0 <= k < |ev| ensures ev[k].Executed? ==> 3 < k < |ev| - 3 {
      if k < |Loaded| {
        assert ev[k] == Loaded[k];
      } else if k >= |Loaded| + |mid| {
        assert ev[k] == tail[k - |Loaded| - |mid|];
      }
    }
  }

  /** The events of a session that loaded the catalog: set-up, the phases, tear-down, the ending, close. */
  lemma SessionShape(params: Option<Params>, server: Server)
    requires params.Some? && server.accepts && server.primaryKeys.Some? && server.foreignKeys.Some?
    ensures var ph := Phases(params.value.serialName, server.primaryKeys.value, server.foreignKeys.value,
                             server.primaryKeysLater, server.failingStatement);
            Session(params, server)
            == Report(Loaded + ph.events + [TornDown, if ph.outcome.Pass? then Committed else RolledBack, Closed],
                      ph.outcome, ph.executed)
  {
  }

  /**
   * `execute` closes every connection it opens, exactly once and last, and
   * commits exactly when it succeeds, rolling back otherwise.
   */
  lemma SessionCloses(params: Option<Params>, server: Server)
    requires params.Some? && server.accepts
    ensures var r := Session(params, server);
            var ev := r.events;
            |ev| >= 4 && ev[0] == Opened && ev[|ev| - 1] == Closed
            && multiset(ev)[Opened] == 1 && multiset(ev)[Closed] == 1
            && multiset(ev)[Committed] == (if r.outcome.Pass? then 1 else 0)
            && multiset(ev)[RolledBack] == (if r.outcome.Pass? then 0 else 1)
  {
    if server.primaryKeys.Some? && server.foreignKeys.Some? {
      var name, pks, fks := params.value.serialName, server.primaryKeys.value, server.foreignKeys.value;
      var ph := Phases(name, pks, fks, server.primaryKeysLater, server.failingStatement);
      SessionShape(params, server);
      PhasesEventKinds(name, pks, fks, server.primaryKeysLater, server.failingStatement);
      Bracketed(ph.events, if ph.outcome.Pass? then Committed else RolledBack);
    }
  }

  /**
   * Once the catalog is loaded, `execute` sets up and tears down exactly once,
   * whatever the outcome, and sends every statement between the two.
   */
  lemma SessionTearsDown(params: Option<Params>, server: Server)
    requires params.Some? && server.accepts && server.primaryKeys.Some? && server.foreignKeys.Some?
    ensures var ev := Session(params, server).events;
            |ev| >= 7 && ev[3] == SetUp && ev[|ev| - 3] == TornDown
            && multiset(ev)[SetUp] == 1 && multiset(ev)[TornDown] == 1
            && (forall k :: 0 <= k < |ev| && ev[k].Executed? ==> 3 < k < |ev| - 3)
  {
    var name, pks, fks := params.value.serialName, server.primaryKeys.value, server.foreignKeys.value;
    var ph := Phases(name, pks, fks, server.primaryKeysLater, server.failingStatement);
    SessionShape(params, server);
    PhasesEventKinds(name, pks, fks, server.primaryKeysLater, server.failingStatement);
    Bracketed(ph.events, if ph.outcome.Pass? then Committed else RolledBack);
  }

  /**
   * When a catalog query raises, `execute` neither sets up nor tears down,
   * sends no statement, and rolls back and closes.
   */
  lemma SessionCatalogFails(params: Option<Params>, server: Server)
    requires params.Some? && server.accepts && (server.primaryKeys.None? || server.foreignKeys.None?)
    ensures var r := Session(params, server);
            r.outcome == Fail(CatalogQueryFailed) && r.executed == 0
            && SetUp !in r.events && TornDown !in r.events
            && (forall k :: 0 <= k < |r.events| ==> !r.events[k].Executed?)
            && r.events[|r.events| - 2..] == [RolledBack, Closed]
  {
    var ev := Session(params, server).events;
    assert ev == [Opened, QueriedPrimaryKeys, RolledBack, Closed]
           || ev == [Opened, QueriedPrimaryKeys, QueriedForeignKeys, RolledBack, Closed];
    forall k | 0 <= k < |ev| ensures !ev[k].Executed? {
      assert ev[k] in ev;
    }
  }

  /** A primary-key loop that meets no failing statement sends exactly the statements its rows mean. */
  lemma PkLoopCompletes(phase: PkPhase, rows: seq<PkRow>, sent: nat, failAt: Option<nat>)
    requires phase.AssignTemp? ==> BraceFree(rows)
    requires failAt.None? || failAt.value < sent || failAt.value >= sent + |PkStatements(phase, rows)|
    ensures RunPk(phase, rows, sent, failAt)
            == Report(Sent(PkStatements(phase, rows)), Pass, sent + |PkStatements(phase, rows)|)
  {
    RunPkIsRun(phase, rows, sent, failAt);
    PkStepsAreExecs(phase, rows);
    ExecsRun(PkStatements(phase, rows));
    RunCleanPasses(PkSteps(phase, rows), sent, failAt);
  }

  /** A foreign-key loop that meets no failing statement sends exactly the statements its rows mean. */
  lemma FkLoopCompletes(phase: FkPhase, rows: seq<FkRow>, sent: nat, failAt: Option<nat>)
    requires failAt.None? || failAt.value < sent || failAt.value >= sent + |FkStatements(phase, rows)|
    ensures RunFk(phase, rows, sent, failAt)
            == Report(Sent(FkStatements(phase, rows)), Pass, sent + |FkStatements(phase, rows)|)
  {
    RunFkIsRun(phase, rows, sent, failAt);
    FkStepsAreExecs(phase, rows);
    ExecsRun(FkStatements(phase, rows));
    RunCleanPasses(FkSteps(phase, rows), sent, failAt);
  }

  lemma SentAppend(a: seq<Statement>, b: seq<Statement>)
    ensures Sent(a) + Sent(b) == Sent(a + b)
  {
  }

  /** Without a serial name, nothing the phases would do after the temp columns matters. */
  lemma PhasesStopWithoutSerial(pks: seq<PkRow>, fks: seq<FkRow>, later: Option<seq<PkRow>>, failAt: Option<nat>)
    ensures var r1 := RunPk(AddTemp, pks, 0, failAt);
            var r2 := Then(r1, RunPk(AssignTemp, pks, r1.executed, failAt));
            Phases(None, pks, fks, later, failAt) == Then(r2, Report([], Fail(MissingSerialName), r2.executed))
  {
  }

  /**
   * Without `serial_name` in `params`, the session adds and fills the temp
   * columns, then raises the key error as the serial phase starts, sending
   * nothing more.
   */
  lemma PhasesWithoutSerialName(pks: seq<PkRow>, fks: seq<FkRow>, later: Option<seq<PkRow>>, failAt: Option<nat>)
    requires BraceFree(pks)
    requires failAt.None? || failAt.value >= |PkStatements(AddTemp, pks)| + |PkStatements(AssignTemp, pks)|
    ensures var before := PkStatements(AddTemp, pks) + PkStatements(AssignTemp, pks);
            Phases(None, pks, fks, later, failAt) == Report(Sent(before), Fail(MissingSerialName), |before|)
  {
    TempPhasesPass(pks, failAt);
    PhasesStopWithoutSerial(pks, fks, later, failAt);
  }

  /** The two temp-column loops, run back to back, send every statement of both. */
  lemma TempPhasesPass(pks: seq<PkRow>, failAt: Option<nat>)
    requires BraceFree(pks)
    requires failAt.None? || failAt.value >= |PkStatements(AddTemp, pks)| + |PkStatements(AssignTemp, pks)|
    ensures var a, b := PkStatements(AddTemp, pks), PkStatements(AssignTemp, pks);
            var r1 := RunPk(AddTemp, pks, 0, failAt);
            Then(r1, RunPk(AssignTemp, pks, r1.executed, failAt)) == Report(Sent(a + b), Pass, |a + b|)
  {
    var a, b := PkStatements(AddTemp, pks), PkStatements(AssignTemp, pks);
    PkLoopCompletes(AddTemp, pks, 0, failAt);
    PkLoopCompletes(AssignTemp, pks, |a|, failAt);
    SentAppend(a, b);
  }
}
