/**
 * What a completed session does to the data: each primary-key column ends up
 * holding the uuids generated into its temp column, the serial column keeps
 * the old keys, each foreign-key value that matched an old key ends up equal
 * to the new key of the row it referenced, and each foreign-key constraint is
 * re-created under its old name on the same columns.
 */
module Correlation {
  import opened Wrappers
  import opened Catalog
  import opened SqlBuilder
  import opened Plan
  import opened PlanProperties
  import opened Effects

  // ---------------------------------------------------------------------------
  // The columns each catalog row names
  // ---------------------------------------------------------------------------

  function PkTable(p: PkRow): string { TableName(p.tableSchema, p.tableName) }
  function PkCell(p: PkRow): Cell { (PkTable(p), p.columnName) }
  function TempCell(p: PkRow): Cell { (PkTable(p), TempColumnName(p.columnName)) }
  function SerialCell(serial: string, p: PkRow): Cell { (PkTable(p), serial) }

  function FkTable(f: FkRow): string { TableName(f.tableSchema, f.tableName) }
  function FkCell(f: FkRow): Cell { (FkTable(f), f.columnName) }
  function RefTable(f: FkRow): string { TableName(f.foreignTableSchema, f.foreignTableName) }
  function RefCell(f: FkRow): Cell { (RefTable(f), f.foreignColumnName) }
  function RefTemp(f: FkRow): Cell { (RefTable(f), TempColumnName(f.foreignColumnName)) }
  function ConstraintKey(f: FkRow): Cell { (FkTable(f), f.constraintName) }

  predicate IsPk(pks: seq<PkRow>, k: Cell) { exists j :: 0 <= j < |pks| && PkCell(pks[j]) == k }
  predicate IsTemp(pks: seq<PkRow>, k: Cell) { exists j :: 0 <= j < |pks| && TempCell(pks[j]) == k }
  predicate IsSerial(serial: string, pks: seq<PkRow>, k: Cell) { exists j :: 0 <= j < |pks| && SerialCell(serial, pks[j]) == k }
  predicate IsFk(fks: seq<FkRow>, k: Cell) { exists j :: 0 <= j < |fks| && FkCell(fks[j]) == k }

  // ---------------------------------------------------------------------------
  // What the theorem assumes of the database and the catalog
  // ---------------------------------------------------------------------------

  /**
   * One key column per table, each present, holding one value per row, its
   * values distinct (it is a primary key), and named by an identifier rather
   * than by the uuid expression.
   */
  predicate KeysFit(db: Db, pks: seq<PkRow>)
  {
    (forall i, j :: 0 <= i < |pks| && 0 <= j < |pks| && i != j ==> PkTable(pks[i]) != PkTable(pks[j]))
    && (forall i :: 0 <= i < |pks| ==>
          PkTable(pks[i]) in db.rows && PkCell(pks[i]) in db.cols
          && |db.cols[PkCell(pks[i])]| == db.rows[PkTable(pks[i])]
          && Distinct(db.cols[PkCell(pks[i])]) && pks[i].columnName != RandomUuid)
  }

  /** The serial column is neither a key column nor a temp column of its table. */
  predicate SerialFits(serial: string, pks: seq<PkRow>)
  {
    forall i :: 0 <= i < |pks| ==> serial != pks[i].columnName && serial != TempColumnName(pks[i].columnName)
  }

  /**
   * Each foreign-key column is listed once, under a constraint name of its own;
   * it exists, it references one of the key columns, and it is none of the
   * columns the primary-key phases write (a key column that is also a foreign
   * key is excluded).
   */
  predicate ForeignKeysFit(db: Db, serial: string, pks: seq<PkRow>, fks: seq<FkRow>)
  {
    (forall i, j :: 0 <= i < |fks| && 0 <= j < |fks| && i != j ==>
       FkCell(fks[i]) != FkCell(fks[j]) && ConstraintKey(fks[i]) != ConstraintKey(fks[j]))
    && (forall i :: 0 <= i < |fks| ==>
          FkTable(fks[i]) in db.rows && FkCell(fks[i]) in db.cols && IsPk(pks, RefCell(fks[i]))
          && !IsPk(pks, FkCell(fks[i])) && !IsTemp(pks, FkCell(fks[i])) && !IsSerial(serial, pks, FkCell(fks[i])))
  }

  /**
   * The re-queried primary keys are the original ones: each names a key column
   * of the first catalog, and each key column, still an integer when the query
   * runs, is listed again and not as a uuid.
   */
  predicate Requeried(later: seq<PkRow>, pks: seq<PkRow>)
  {
    (forall i :: 0 <= i < |later| ==> IsPk(pks, PkCell(later[i])))
    && (forall i :: 0 <= i < |pks| ==>
          exists j :: 0 <= j < |later| && PkCell(later[j]) == PkCell(pks[i]) && later[j].dataType != "uuid")
  }

  /** No key column has a default expression. */
  predicate NoKeyDefaults(db: Db, pks: seq<PkRow>)
  {
    forall i :: 0 <= i < |pks| ==> PkCell(pks[i]) !in db.defaults
  }

  /** Every foreign-key value is NULL or one of the keys it references. */
  predicate Integrity(db: Db, fks: seq<FkRow>)
  {
    forall i :: 0 <= i < |fks| ==>
      FkCell(fks[i]) in db.cols && RefCell(fks[i]) in db.cols
      && Referenced(db.cols[FkCell(fks[i])], db.cols[RefCell(fks[i])])
  }

  // ---------------------------------------------------------------------------
  // Names that cannot clash
  // ---------------------------------------------------------------------------

  lemma TempIsNotKey(c: string)
    ensures TempColumnName(c) != c && TempColumnName(c) != RandomUuid
  {
    var t := TempColumnName(c);
    assert t[|t| - 1] == TempSuffix[|TempSuffix| - 1] == 'e';
    assert RandomUuid[|RandomUuid| - 1] == ')';
  }

  /** With one key column per table, key, temp and serial columns are all apart. */
  lemma PkCellsApart(serial: string, pks: seq<PkRow>, i: int, j: int)
    requires forall a, b :: 0 <= a < |pks| && 0 <= b < |pks| && a != b ==> PkTable(pks[a]) != PkTable(pks[b])
    requires SerialFits(serial, pks)
    requires 0 <= i < |pks| && 0 <= j < |pks|
    ensures PkCell(pks[i]) != TempCell(pks[j]) && PkCell(pks[i]) != SerialCell(serial, pks[j])
    ensures TempCell(pks[i]) != SerialCell(serial, pks[j])
    ensures i != j ==> PkCell(pks[i]) != PkCell(pks[j]) && TempCell(pks[i]) != TempCell(pks[j])
                       && SerialCell(serial, pks[i]) != SerialCell(serial, pks[j])
  {
    TempIsNotKey(pks[i].columnName);
  }

  lemma KeyIsNotTemp(serial: string, pks: seq<PkRow>, k: Cell)
    requires forall a, b :: 0 <= a < |pks| && 0 <= b < |pks| && a != b ==> PkTable(pks[a]) != PkTable(pks[b])
    requires SerialFits(serial, pks)
    requires IsPk(pks, k)
    ensures !IsTemp(pks, k) && !IsSerial(serial, pks, k)
  {
    var i :| 0 <= i < |pks| && PkCell(pks[i]) == k;
    forall j | 0 <= j < |pks| ensures TempCell(pks[j]) != k && SerialCell(serial, pks[j]) != k {
      PkCellsApart(serial, pks, i, j);
    }
  }

  lemma TempIsNotKeyOrSerial(serial: string, pks: seq<PkRow>, k: Cell)
    requires forall a, b :: 0 <= a < |pks| && 0 <= b < |pks| && a != b ==> PkTable(pks[a]) != PkTable(pks[b])
    requires SerialFits(serial, pks)
    requires IsTemp(pks, k)
    ensures !IsPk(pks, k) && !IsSerial(serial, pks, k)
  {
    var i :| 0 <= i < |pks| && TempCell(pks[i]) == k;
    forall j | 0 <= j < |pks| ensures PkCell(pks[j]) != k && SerialCell(serial, pks[j]) != k {
      PkCellsApart(serial, pks, j, i);
    }
  }

  // ---------------------------------------------------------------------------
  // The primary-key phases before the foreign keys
  // ---------------------------------------------------------------------------

  /** `_add_temporary_column`: every key table gets its temp column; nothing else changes. */
  lemma AddTempEffect(db: Db, pks: seq<PkRow>)
    requires forall a, b :: 0 <= a < |pks| && 0 <= b < |pks| && a != b ==> PkTable(pks[a]) != PkTable(pks[b])
    requires forall i :: 0 <= i < |pks| ==> PkTable(pks[i]) in db.rows
    ensures var r := ApplyAll(PkStatements(AddTemp, pks), db);
            r.Some? && r.value.constraints == db.constraints
            && (forall i :: 0 <= i < |pks| ==> TempCell(pks[i]) in r.value.cols)
            && (forall k :: !IsTemp(pks, k) ==> Agree(db, r.value, k))
  {
    var ss := PkStatements(AddTemp, pks);
    PkOnePerRow(AddTemp, pks);
    forall i | 0 <= i < |ss| ensures ss[i] == AddColumn(PkTable(pks[i]), TempColumnName(pks[i].columnName), "UUID") {
      assert [ss[i]] == PkRowStatements(AddTemp, pks[i]);
    }
    ParallelEffect(ss, db);
    forall k | !IsTemp(pks, k) ensures !Writes(ss, k) {
      forall i | 0 <= i < |ss| ensures Write(ss[i]) != k { assert Write(ss[i]) == TempCell(pks[i]); }
    }
    forall i | 0 <= i < |pks| ensures TempCell(pks[i]) in ApplyAll(ss, db).value.cols {
      assert Write(ss[i]) == TempCell(pks[i]);
    }
  }

  /** `_assign_value_to_temporary_pk_column`: every temp column gets one new uuid per row. */
  lemma AssignTempEffect(db: Db, pks: seq<PkRow>)
    requires forall a, b :: 0 <= a < |pks| && 0 <= b < |pks| && a != b ==> PkTable(pks[a]) != PkTable(pks[b])
    requires forall i :: 0 <= i < |pks| ==> PkTable(pks[i]) in db.rows && TempCell(pks[i]) in db.cols
    ensures var r := ApplyAll(PkStatements(AssignTemp, pks), db);
            r.Some? && r.value.constraints == db.constraints
            && (forall i :: 0 <= i < |pks| ==>
                  TempCell(pks[i]) in r.value.cols
                  && r.value.cols[TempCell(pks[i])]
                     == Generate(PkTable(pks[i]), TempColumnName(pks[i].columnName), db.rows[PkTable(pks[i])]))
            && (forall k :: !IsTemp(pks, k) ==> Agree(db, r.value, k))
  {
    var ss := PkStatements(AssignTemp, pks);
    AssignTempStatements(pks);
    forall i | 0 <= i < |ss| ensures Rewrites(ss[i]) && NewColumn(ss[i], db).Some? {
    }
    forall i, j | 0 <= i < |ss| && 0 <= j < |ss| && i != j ensures Write(ss[j]) !in Reads(ss[i]) {
    }
    ParallelEffect(ss, db);
    forall k | !IsTemp(pks, k) ensures !Writes(ss, k) {
      forall i | 0 <= i < |ss| ensures Write(ss[i]) != k { assert Write(ss[i]) == TempCell(pks[i]); }
    }
    forall i | 0 <= i < |pks|
      ensures TempCell(pks[i]) in ApplyAll(ss, db).value.cols
              && ApplyAll(ss, db).value.cols[TempCell(pks[i])]
                 == Generate(PkTable(pks[i]), TempColumnName(pks[i].columnName), db.rows[PkTable(pks[i])])
    {
      assert Write(ss[i]) == TempCell(pks[i]);
    }
  }

  lemma AssignTempStatements(pks: seq<PkRow>)
    ensures var ss := PkStatements(AssignTemp, pks);
            |ss| == |pks|
            && forall i :: 0 <= i < |ss| ==> ss[i] == UpdateColumn(PkTable(pks[i]), TempColumnName(pks[i].columnName), RandomUuid)
  {
    var ss := PkStatements(AssignTemp, pks);
    PkOnePerRow(AssignTemp, pks);
    forall i | 0 <= i < |ss| ensures ss[i] == UpdateColumn(PkTable(pks[i]), TempColumnName(pks[i].columnName), RandomUuid) {
      assert [ss[i]] == PkRowStatements(AssignTemp, pks[i]);
    }
  }

  /** `_add_serial_column`: every key table gets the serial column; nothing else changes. */
  lemma AddSerialEffect(db: Db, serial: string, pks: seq<PkRow>)
    requires forall a, b :: 0 <= a < |pks| && 0 <= b < |pks| && a != b ==> PkTable(pks[a]) != PkTable(pks[b])
    requires forall i :: 0 <= i < |pks| ==> PkTable(pks[i]) in db.rows
    ensures var r := ApplyAll(PkStatements(AddSerial(serial), pks), db);
            r.Some? && r.value.constraints == db.constraints
            && (forall i :: 0 <= i < |pks| ==> SerialCell(serial, pks[i]) in r.value.cols)
            && (forall k :: !IsSerial(serial, pks, k) ==> Agree(db, r.value, k))
  {
    var ss := PkStatements(AddSerial(serial), pks);
    PkOnePerRow(AddSerial(serial), pks);
    forall i | 0 <= i < |ss| ensures ss[i] == AddColumn(PkTable(pks[i]), serial, pks[i].dataType) {
      assert [ss[i]] == PkRowStatements(AddSerial(serial), pks[i]);
    }
    ParallelEffect(ss, db);
    forall k | !IsSerial(serial, pks, k) ensures !Writes(ss, k) {
      forall i | 0 <= i < |ss| ensures Write(ss[i]) != k { assert Write(ss[i]) == SerialCell(serial, pks[i]); }
    }
    forall i | 0 <= i < |pks| ensures SerialCell(serial, pks[i]) in ApplyAll(ss, db).value.cols {
      assert Write(ss[i]) == SerialCell(serial, pks[i]);
    }
  }

  /** `_copy_pk_column_to_serial_column`: every serial column gets a copy of its table's key. */
  lemma CopyToSerialEffect(db: Db, serial: string, pks: seq<PkRow>)
    requires forall a, b :: 0 <= a < |pks| && 0 <= b < |pks| && a != b ==> PkTable(pks[a]) != PkTable(pks[b])
    requires SerialFits(serial, pks)
    requires forall i :: 0 <= i < |pks| ==>
               PkTable(pks[i]) in db.rows && SerialCell(serial, pks[i]) in db.cols && PkCell(pks[i]) in db.cols
               && pks[i].columnName != RandomUuid
    ensures var r := ApplyAll(PkStatements(CopyToSerial(serial), pks), db);
            r.Some? && r.value.constraints == db.constraints
            && (forall i :: 0 <= i < |pks| ==>
                  SerialCell(serial, pks[i]) in r.value.cols
                  && r.value.cols[SerialCell(serial, pks[i])] == db.cols[PkCell(pks[i])])
            && (forall k :: !IsSerial(serial, pks, k) ==> Agree(db, r.value, k))
  {
    var ss := PkStatements(CopyToSerial(serial), pks);
    PkOnePerRow(CopyToSerial(serial), pks);
    forall i | 0 <= i < |ss| ensures ss[i] == UpdateColumn(PkTable(pks[i]), serial, pks[i].columnName) {
      assert [ss[i]] == PkRowStatements(CopyToSerial(serial), pks[i]);
    }
    forall i, j | 0 <= i < |ss| && 0 <= j < |ss| && i != j ensures Write(ss[j]) !in Reads(ss[i]) {
      assert Reads(ss[i]) == {SerialCell(serial, pks[i]), PkCell(pks[i])};
      PkCellsApart(serial, pks, i, j);
    }
    ParallelEffect(ss, db);
    forall k | !IsSerial(serial, pks, k) ensures !Writes(ss, k) {
      forall i | 0 <= i < |ss| ensures Write(ss[i]) != k { assert Write(ss[i]) == SerialCell(serial, pks[i]); }
    }
    forall i | 0 <= i < |pks|
      ensures SerialCell(serial, pks[i]) in ApplyAll(ss, db).value.cols
              && ApplyAll(ss, db).value.cols[SerialCell(serial, pks[i])] == db.cols[PkCell(pks[i])]
    {
      assert Write(ss[i]) == SerialCell(serial, pks[i]);
    }
  }

  // ---------------------------------------------------------------------------
  // The statements of each phase, one per row
  // ---------------------------------------------------------------------------

  lemma DropStatements(fks: seq<FkRow>)
    ensures var ss := FkStatements(DropFk, fks);
            |ss| == |fks| && forall i :: 0 <= i < |ss| ==> ss[i] == DropConstraint(FkTable(fks[i]), fks[i].constraintName)
  {
    var ss := FkStatements(DropFk, fks);
    FkOnePerRow(DropFk, fks);
    forall i | 0 <= i < |ss| ensures ss[i] == DropConstraint(FkTable(fks[i]), fks[i].constraintName) {
      assert [ss[i]] == FkRowStatements(DropFk, fks[i]);
    }
  }

  lemma PropagateStatements(fks: seq<FkRow>)
    ensures var ss := FkStatements(PropagateToFk, fks);
            |ss| == |fks|
            && forall i :: 0 <= i < |ss| ==>
                 ss[i] == CopyPkValuesToFk(FkTable(fks[i]), fks[i].columnName, TempColumnName(fks[i].foreignColumnName),
                                           RefTable(fks[i]), fks[i].foreignColumnName)
  {
    var ss := FkStatements(PropagateToFk, fks);
    FkOnePerRow(PropagateToFk, fks);
    forall i | 0 <= i < |ss|
      ensures ss[i] == CopyPkValuesToFk(FkTable(fks[i]), fks[i].columnName, TempColumnName(fks[i].foreignColumnName),
                                        RefTable(fks[i]), fks[i].foreignColumnName)
    {
      assert [ss[i]] == FkRowStatements(PropagateToFk, fks[i]);
    }
  }

  lemma RecreateStatements(fks: seq<FkRow>)
    ensures var ss := FkStatements(RecreateFk, fks);
            |ss| == |fks|
            && forall i :: 0 <= i < |ss| ==>
                 ss[i] == CreateConstraint(FkTable(fks[i]), fks[i].constraintName, fks[i].columnName,
                                           RefTable(fks[i]), fks[i].foreignColumnName)
  {
    var ss := FkStatements(RecreateFk, fks);
    FkOnePerRow(RecreateFk, fks);
    forall i | 0 <= i < |ss|
      ensures ss[i] == CreateConstraint(FkTable(fks[i]), fks[i].constraintName, fks[i].columnName,
                                        RefTable(fks[i]), fks[i].foreignColumnName)
    {
      assert [ss[i]] == FkRowStatements(RecreateFk, fks[i]);
    }
  }

  lemma TempToPkStatements(pks: seq<PkRow>)
    ensures var ss := PkStatements(TempToPk, pks);
            |ss| == |pks|
            && forall i :: 0 <= i < |ss| ==> ss[i] == UpdateColumn(PkTable(pks[i]), pks[i].columnName, TempColumnName(pks[i].columnName))
  {
    var ss := PkStatements(TempToPk, pks);
    PkOnePerRow(TempToPk, pks);
    forall i | 0 <= i < |ss| ensures ss[i] == UpdateColumn(PkTable(pks[i]), pks[i].columnName, TempColumnName(pks[i].columnName)) {
      assert [ss[i]] == PkRowStatements(TempToPk, pks[i]);
    }
  }

  // ---------------------------------------------------------------------------
  // The foreign-key phases
  // ---------------------------------------------------------------------------

  /** The constraint keys the foreign-key rows name. */
  function FkKeys(fks: seq<FkRow>): set<Cell>
  {
    set i | 0 <= i < |fks| :: ConstraintKey(fks[i])
  }

  /** `_drop_fk_constraint`: each listed constraint is gone (`if exists`); no column changes. */
  lemma DropFkEffect(db: Db, fks: seq<FkRow>)
    requires forall i :: 0 <= i < |fks| ==> FkTable(fks[i]) in db.rows
    ensures ApplyAll(FkStatements(DropFk, fks), db) == Some(db.(constraints := db.constraints - FkKeys(fks)))
  {
    var ss := FkStatements(DropFk, fks);
    DropStatements(fks);
    assert ConstraintKeys(ss) == FkKeys(fks) by {
      forall k | k in ConstraintKeys(ss) ensures k in FkKeys(fks) {
        var i :| 0 <= i < |ss| && k == (ss[i].table, ss[i].constraintName);
        assert k == ConstraintKey(fks[i]);
      }
      forall k | k in FkKeys(fks) ensures k in ConstraintKeys(ss) {
        var i :| 0 <= i < |fks| && k == ConstraintKey(fks[i]);
        assert k == (ss[i].table, ss[i].constraintName);
      }
    }
    DropsRemove(ss, db);
  }

  /** `_change_fk_column_to_datatype`: retyping an existing column keeps its values. */
  lemma RetypeEffect(db: Db, fks: seq<FkRow>, dataType: string)
    requires forall i :: 0 <= i < |fks| ==> FkCell(fks[i]) in db.cols
    ensures ApplyAll(FkStatements(RetypeFk(dataType), fks), db) == Some(db)
  {
    var targets := NotOfType(fks, dataType);
    var ss := FkStatements(RetypeFk(dataType), fks);
    RetypeFkSkips(fks, dataType);
    forall i | 0 <= i < |ss| ensures ss[i].AlterColumnDatatype? && Write(ss[i]) in db.cols {
      NotOfTypeMembers(fks, dataType, targets[i]);
      var j :| 0 <= j < |fks| && fks[j] == targets[i];
      assert Write(ss[i]) == FkCell(fks[j]);
    }
    RetypesKeep(ss, db);
  }

  /**
   * `_copy_pk_values_to_fk_columns`: each foreign-key column takes, value by
   * value, the temp value of the key it matches; nothing else changes.
   */
  lemma PropagateEffect(db: Db, fks: seq<FkRow>)
    requires forall i :: 0 <= i < |fks| ==>
               FkCell(fks[i]) in db.cols && RefCell(fks[i]) in db.cols && RefTemp(fks[i]) in db.cols
    requires forall i, j :: 0 <= i < |fks| && 0 <= j < |fks| ==>
               FkCell(fks[j]) != RefCell(fks[i]) && FkCell(fks[j]) != RefTemp(fks[i])
               && (i != j ==> FkCell(fks[i]) != FkCell(fks[j]))
    ensures var r := ApplyAll(FkStatements(PropagateToFk, fks), db);
            r.Some? && r.value.constraints == db.constraints
            && (forall i :: 0 <= i < |fks| ==>
                  FkCell(fks[i]) in r.value.cols
                  && r.value.cols[FkCell(fks[i])]
                     == Propagated(db.cols[FkCell(fks[i])], db.cols[RefCell(fks[i])], db.cols[RefTemp(fks[i])]))
            && (forall k :: !IsFk(fks, k) ==> Agree(db, r.value, k))
  {
    var ss := FkStatements(PropagateToFk, fks);
    PropagateStatements(fks);
    forall i | 0 <= i < |ss| ensures Rewrites(ss[i]) && NewColumn(ss[i], db).Some? {
    }
    forall i, j | 0 <= i < |ss| && 0 <= j < |ss| && i != j ensures Write(ss[j]) !in Reads(ss[i]) {
      assert Reads(ss[i]) == {FkCell(fks[i]), RefTemp(fks[i]), RefCell(fks[i])};
      assert Write(ss[j]) == FkCell(fks[j]);
    }
    ParallelEffect(ss, db);
    forall k | !IsFk(fks, k) ensures !Writes(ss, k) {
      forall i | 0 <= i < |ss| ensures Write(ss[i]) != k { assert Write(ss[i]) == FkCell(fks[i]); }
    }
    forall i | 0 <= i < |fks|
      ensures FkCell(fks[i]) in ApplyAll(ss, db).value.cols
              && ApplyAll(ss, db).value.cols[FkCell(fks[i])]
                 == Propagated(db.cols[FkCell(fks[i])], db.cols[RefCell(fks[i])], db.cols[RefTemp(fks[i])])
    {
      assert Write(ss[i]) == FkCell(fks[i]);
    }
  }

  // ---------------------------------------------------------------------------
  // The primary-key phases after the re-query, and the constraints
  // ---------------------------------------------------------------------------

  /** `_change_pk_column_to_uuid`: only re-queried key columns change, and no column appears or goes. */
  lemma CastEffect(db: Db, later: seq<PkRow>)
    requires forall i :: 0 <= i < |later| ==> PkCell(later[i]) in db.cols && PkCell(later[i]) !in db.defaults
    ensures var r := ApplyAll(PkStatements(PkToUuid, later), db);
            r.Some? && r.value.constraints == db.constraints
            && (forall k :: k in r.value.cols <==> k in db.cols)
            && (forall k :: !IsPk(later, k) ==> Agree(db, r.value, k))
  {
    var targets := NotUuid(later);
    var ss := PkStatements(PkToUuid, later);
    PkToUuidSkips(later);
    forall i | 0 <= i < |ss|
      ensures ss[i].AlterPkColumnToUuid? && Write(ss[i]) in db.cols && Write(ss[i]) !in db.defaults && IsPk(later, Write(ss[i]))
    {
      NotUuidMembers(later, targets[i]);
      var j :| 0 <= j < |later| && later[j] == targets[i];
      assert Write(ss[i]) == PkCell(later[j]);
    }
    CastsFrame(ss, db);
  }

  /** `_copy_temporary_column_to_pk`: each key column takes its temp column's values. */
  lemma TempToPkEffect(db: Db, pks: seq<PkRow>)
    requires forall a, b :: 0 <= a < |pks| && 0 <= b < |pks| && a != b ==> PkTable(pks[a]) != PkTable(pks[b])
    requires forall i :: 0 <= i < |pks| ==>
               PkTable(pks[i]) in db.rows && PkCell(pks[i]) in db.cols && TempCell(pks[i]) in db.cols
    ensures var r := ApplyAll(PkStatements(TempToPk, pks), db);
            r.Some? && r.value.constraints == db.constraints
            && (forall i :: 0 <= i < |pks| ==>
                  PkCell(pks[i]) in r.value.cols && r.value.cols[PkCell(pks[i])] == db.cols[TempCell(pks[i])])
            && (forall k :: !IsPk(pks, k) ==> Agree(db, r.value, k))
  {
    var ss := PkStatements(TempToPk, pks);
    TempToPkStatements(pks);
    forall i | 0 <= i < |ss| ensures Rewrites(ss[i]) && NewColumn(ss[i], db).Some? && Reads(ss[i]) == {PkCell(pks[i]), TempCell(pks[i])} {
      TempIsNotKey(pks[i].columnName);
    }
    forall i, j | 0 <= i < |ss| && 0 <= j < |ss| && i != j ensures Write(ss[j]) !in Reads(ss[i]) {
      assert Write(ss[j]) == PkCell(pks[j]);
    }
    ParallelEffect(ss, db);
    forall k | !IsPk(pks, k) ensures !Writes(ss, k) {
      forall i | 0 <= i < |ss| ensures Write(ss[i]) != k { assert Write(ss[i]) == PkCell(pks[i]); }
    }
    forall i | 0 <= i < |pks|
      ensures PkCell(pks[i]) in ApplyAll(ss, db).value.cols
              && ApplyAll(ss, db).value.cols[PkCell(pks[i])] == db.cols[TempCell(pks[i])]
    {
      assert Write(ss[i]) == PkCell(pks[i]);
    }
  }

  /**
   * `_create_fk_constraint`: each constraint comes back under its old name on
   * the same columns; no column changes and no other constraint changes.
   */
  lemma RecreateEffect(db: Db, fks: seq<FkRow>)
    requires forall i, j :: 0 <= i < |fks| && 0 <= j < |fks| && i != j ==> ConstraintKey(fks[i]) != ConstraintKey(fks[j])
    requires forall i :: 0 <= i < |fks| ==>
               FkTable(fks[i]) in db.rows && FkCell(fks[i]) in db.cols && RefCell(fks[i]) in db.cols
               && ConstraintKey(fks[i]) !in db.constraints
               && Referenced(db.cols[FkCell(fks[i])], db.cols[RefCell(fks[i])])
    ensures var r := ApplyAll(FkStatements(RecreateFk, fks), db);
            r.Some? && r.value.cols == db.cols
            && (forall i :: 0 <= i < |fks| ==>
                  ConstraintKey(fks[i]) in r.value.constraints
                  && r.value.constraints[ConstraintKey(fks[i])]
                     == Reference(fks[i].columnName, RefTable(fks[i]), fks[i].foreignColumnName))
            && (forall k :: k !in FkKeys(fks) ==>
                  (k in r.value.constraints <==> k in db.constraints)
                  && (k in db.constraints ==> r.value.constraints[k] == db.constraints[k]))
  {
    var ss := FkStatements(RecreateFk, fks);
    RecreateStatements(fks);
    CreatesAdd(ss, db);
    forall k | k !in FkKeys(fks) ensures k !in ConstraintKeys(ss) {
      forall i | 0 <= i < |ss| ensures (ss[i].table, ss[i].constraintName) != k {
        assert (ss[i].table, ss[i].constraintName) == ConstraintKey(fks[i]);
      }
    }
    forall i | 0 <= i < |fks|
      ensures ConstraintKey(fks[i]) in ApplyAll(ss, db).value.constraints
              && ApplyAll(ss, db).value.constraints[ConstraintKey(fks[i])]
                 == Reference(fks[i].columnName, RefTable(fks[i]), fks[i].foreignColumnName)
    {
      assert (ss[i].table, ss[i].constraintName) == ConstraintKey(fks[i]);
    }
  }

  // ---------------------------------------------------------------------------
  // What the session has done by each stage
  // ---------------------------------------------------------------------------

  /** The values `gen_random_uuid()` puts in the temp column of a key table, one per row. */
  function NewKeys(db: Db, p: PkRow): seq<Value>
    requires PkTable(p) in db.rows
  {
    Generate(PkTable(p), TempColumnName(p.columnName), db.rows[PkTable(p)])
  }

  /** Every temp column holds its table's new keys. */
  predicate TempsFilled(db: Db, d: Db, pks: seq<PkRow>)
  {
    forall i :: 0 <= i < |pks| ==>
      PkTable(pks[i]) in db.rows && TempCell(pks[i]) in d.cols && d.cols[TempCell(pks[i])] == NewKeys(db, pks[i])
  }

  /** Every serial column holds its table's old keys. */
  predicate SerialsCopied(db: Db, d: Db, serial: string, pks: seq<PkRow>)
  {
    forall i :: 0 <= i < |pks| ==>
      PkCell(pks[i]) in db.cols && SerialCell(serial, pks[i]) in d.cols
      && d.cols[SerialCell(serial, pks[i])] == db.cols[PkCell(pks[i])]
  }

  /** Every foreign-key column holds its old values looked up from old keys to temp values. */
  predicate FksPropagated(db: Db, d: Db, fks: seq<FkRow>)
  {
    forall i :: 0 <= i < |fks| ==>
      FkCell(fks[i]) in db.cols && RefCell(fks[i]) in db.cols && FkCell(fks[i]) in d.cols && RefTemp(fks[i]) in d.cols
      && d.cols[FkCell(fks[i])] == Propagated(db.cols[FkCell(fks[i])], db.cols[RefCell(fks[i])], d.cols[RefTemp(fks[i])])
  }

  /** Every key column holds its table's new keys. */
  predicate KeysReplaced(db: Db, d: Db, pks: seq<PkRow>)
  {
    forall i :: 0 <= i < |pks| ==>
      PkTable(pks[i]) in db.rows && PkCell(pks[i]) in d.cols && d.cols[PkCell(pks[i])] == NewKeys(db, pks[i])
  }

  /** Each listed constraint is back under its old name on the same columns; the others are as they were. */
  ghost predicate ConstraintsRecreated(db: Db, d: Db, fks: seq<FkRow>)
  {
    (forall i :: 0 <= i < |fks| ==>
       ConstraintKey(fks[i]) in d.constraints
       && d.constraints[ConstraintKey(fks[i])] == Reference(fks[i].columnName, RefTable(fks[i]), fks[i].foreignColumnName))
    && (forall k :: k !in FkKeys(fks) ==>
          (k in d.constraints <==> k in db.constraints) && (k in db.constraints ==> d.constraints[k] == db.constraints[k]))
  }

  /** After the primary-key phases 1 to 4. */
  ghost predicate Prepared(db: Db, d: Db, serial: string, pks: seq<PkRow>)
  {
    TempsFilled(db, d, pks) && SerialsCopied(db, d, serial, pks)
    && (forall k :: !IsTemp(pks, k) && !IsSerial(serial, pks, k) ==> Agree(db, d, k))
  }

  /** After the foreign-key values are rewritten. */
  ghost predicate Propagating(db: Db, d: Db, serial: string, pks: seq<PkRow>, fks: seq<FkRow>)
  {
    TempsFilled(db, d, pks) && SerialsCopied(db, d, serial, pks) && FksPropagated(db, d, fks)
    && (forall k :: !IsTemp(pks, k) && !IsSerial(serial, pks, k) && !IsFk(fks, k) ==> Agree(db, d, k))
  }

  /** After the key columns are cast. */
  ghost predicate KeysCast(db: Db, d: Db, serial: string, pks: seq<PkRow>, fks: seq<FkRow>)
  {
    TempsFilled(db, d, pks) && SerialsCopied(db, d, serial, pks) && FksPropagated(db, d, fks)
    && (forall i :: 0 <= i < |pks| ==> PkCell(pks[i]) in d.cols)
    && (forall k :: !IsPk(pks, k) && !IsTemp(pks, k) && !IsSerial(serial, pks, k) && !IsFk(fks, k) ==> Agree(db, d, k))
  }

  /** After the whole session. */
  ghost predicate Replaced(db: Db, d: Db, serial: string, pks: seq<PkRow>, fks: seq<FkRow>)
  {
    KeysReplaced(db, d, pks) && TempsFilled(db, d, pks) && SerialsCopied(db, d, serial, pks) && FksPropagated(db, d, fks)
    && ConstraintsRecreated(db, d, fks)
    && (forall k :: !IsPk(pks, k) && !IsTemp(pks, k) && !IsSerial(serial, pks, k) && !IsFk(fks, k) ==> Agree(db, d, k))
  }

  // ---------------------------------------------------------------------------
  // Which columns each catalog row names, and what carries over
  // ---------------------------------------------------------------------------

  lemma PkCellClass(db: Db, serial: string, pks: seq<PkRow>, fks: seq<FkRow>, i: int)
    requires KeysFit(db, pks) && SerialFits(serial, pks) && ForeignKeysFit(db, serial, pks, fks) && 0 <= i < |pks|
    ensures var k := PkCell(pks[i]); IsPk(pks, k) && !IsTemp(pks, k) && !IsSerial(serial, pks, k) && !IsFk(fks, k)
  {
    assert IsPk(pks, PkCell(pks[i]));
    KeyIsNotTemp(serial, pks, PkCell(pks[i]));
  }

  lemma TempCellClass(db: Db, serial: string, pks: seq<PkRow>, fks: seq<FkRow>, i: int)
    requires KeysFit(db, pks) && SerialFits(serial, pks) && ForeignKeysFit(db, serial, pks, fks) && 0 <= i < |pks|
    ensures var k := TempCell(pks[i]); IsTemp(pks, k) && !IsPk(pks, k) && !IsSerial(serial, pks, k) && !IsFk(fks, k)
  {
    assert IsTemp(pks, TempCell(pks[i]));
    TempIsNotKeyOrSerial(serial, pks, TempCell(pks[i]));
  }

  lemma SerialCellClass(db: Db, serial: string, pks: seq<PkRow>, fks: seq<FkRow>, i: int)
    requires KeysFit(db, pks) && SerialFits(serial, pks) && ForeignKeysFit(db, serial, pks, fks) && 0 <= i < |pks|
    ensures var k := SerialCell(serial, pks[i]); IsSerial(serial, pks, k) && !IsPk(pks, k) && !IsTemp(pks, k) && !IsFk(fks, k)
  {
    var k := SerialCell(serial, pks[i]);
    assert IsSerial(serial, pks, k);
    forall j | 0 <= j < |pks| ensures PkCell(pks[j]) != k && TempCell(pks[j]) != k {
      PkCellsApart(serial, pks, j, i);
    }
  }

  /** A foreign-key column is none of the others; the column it references is a key column, with its temp column. */
  lemma FkCellClass(db: Db, serial: string, pks: seq<PkRow>, fks: seq<FkRow>, i: int)
    requires KeysFit(db, pks) && SerialFits(serial, pks) && ForeignKeysFit(db, serial, pks, fks) && 0 <= i < |fks|
    ensures var k := FkCell(fks[i]); IsFk(fks, k) && !IsPk(pks, k) && !IsTemp(pks, k) && !IsSerial(serial, pks, k)
    ensures exists j :: 0 <= j < |pks| && RefCell(fks[i]) == PkCell(pks[j]) && RefTemp(fks[i]) == TempCell(pks[j])
    ensures var k := RefCell(fks[i]); IsPk(pks, k) && !IsTemp(pks, k) && !IsSerial(serial, pks, k) && !IsFk(fks, k)
    ensures var k := RefTemp(fks[i]); IsTemp(pks, k) && !IsPk(pks, k) && !IsSerial(serial, pks, k) && !IsFk(fks, k)
  {
    assert IsFk(fks, FkCell(fks[i]));
    var j :| 0 <= j < |pks| && PkCell(pks[j]) == RefCell(fks[i]);
    assert RefTemp(fks[i]) == TempCell(pks[j]);
    PkCellClass(db, serial, pks, fks, j);
    TempCellClass(db, serial, pks, fks, j);
  }

  lemma TempsKept(db: Db, d: Db, r: Db, pks: seq<PkRow>)
    requires TempsFilled(db, d, pks) && forall i :: 0 <= i < |pks| ==> Agree(d, r, TempCell(pks[i]))
    ensures TempsFilled(db, r, pks)
  {
  }

  lemma SerialsKept(db: Db, d: Db, r: Db, serial: string, pks: seq<PkRow>)
    requires SerialsCopied(db, d, serial, pks) && forall i :: 0 <= i < |pks| ==> Agree(d, r, SerialCell(serial, pks[i]))
    ensures SerialsCopied(db, r, serial, pks)
  {
  }

  lemma FksKept(db: Db, d: Db, r: Db, fks: seq<FkRow>)
    requires FksPropagated(db, d, fks)
    requires forall i :: 0 <= i < |fks| ==> Agree(d, r, FkCell(fks[i])) && Agree(d, r, RefTemp(fks[i]))
    ensures FksPropagated(db, r, fks)
  {
  }

  // ---------------------------------------------------------------------------
  // One phase more, after the statements `pre` have run
  // ---------------------------------------------------------------------------

  lemma AssignTempStep(db: Db, pre: seq<Statement>, pks: seq<PkRow>)
    requires KeysFit(db, pks)
    requires var d := ApplyAll(pre, db);
             d.Some? && d.value.constraints == db.constraints
             && (forall i :: 0 <= i < |pks| ==> TempCell(pks[i]) in d.value.cols)
             && (forall k :: !IsTemp(pks, k) ==> Agree(db, d.value, k))
    ensures var r := ApplyAll(pre + PkStatements(AssignTemp, pks), db);
            r.Some? && r.value.constraints == db.constraints && TempsFilled(db, r.value, pks)
            && (forall k :: !IsTemp(pks, k) ==> Agree(db, r.value, k))
  {
    ApplyAllAppend(pre, PkStatements(AssignTemp, pks), db);
    AssignTempEffect(ApplyAll(pre, db).value, pks);
  }

  lemma AddSerialStep(db: Db, pre: seq<Statement>, serial: string, pks: seq<PkRow>, fks: seq<FkRow>)
    requires KeysFit(db, pks) && SerialFits(serial, pks) && ForeignKeysFit(db, serial, pks, fks)
    requires var d := ApplyAll(pre, db);
             d.Some? && d.value.constraints == db.constraints && TempsFilled(db, d.value, pks)
             && (forall k :: !IsTemp(pks, k) ==> Agree(db, d.value, k))
    ensures var r := ApplyAll(pre + PkStatements(AddSerial(serial), pks), db);
            r.Some? && r.value.constraints == db.constraints && TempsFilled(db, r.value, pks)
            && (forall i :: 0 <= i < |pks| ==> SerialCell(serial, pks[i]) in r.value.cols)
            && (forall k :: !IsTemp(pks, k) && !IsSerial(serial, pks, k) ==> Agree(db, r.value, k))
  {
    var d := ApplyAll(pre, db).value;
    ApplyAllAppend(pre, PkStatements(AddSerial(serial), pks), db);
    AddSerialEffect(d, serial, pks);
    var r := ApplyAll(PkStatements(AddSerial(serial), pks), d).value;
    forall i | 0 <= i < |pks| ensures Agree(d, r, TempCell(pks[i])) {
      TempCellClass(db, serial, pks, fks, i);
    }
    TempsKept(db, d, r, pks);
  }

  lemma CopyToSerialStep(db: Db, pre: seq<Statement>, serial: string, pks: seq<PkRow>, fks: seq<FkRow>)
    requires KeysFit(db, pks) && SerialFits(serial, pks) && ForeignKeysFit(db, serial, pks, fks)
    requires var d := ApplyAll(pre, db);
             d.Some? && d.value.constraints == db.constraints && TempsFilled(db, d.value, pks)
             && (forall i :: 0 <= i < |pks| ==> SerialCell(serial, pks[i]) in d.value.cols)
             && (forall k :: !IsTemp(pks, k) && !IsSerial(serial, pks, k) ==> Agree(db, d.value, k))
    ensures var r := ApplyAll(pre + PkStatements(CopyToSerial(serial), pks), db);
            r.Some? && r.value.constraints == db.constraints && Prepared(db, r.value, serial, pks)
  {
    var d := ApplyAll(pre, db).value;
    ApplyAllAppend(pre, PkStatements(CopyToSerial(serial), pks), db);
    forall i | 0 <= i < |pks| ensures Agree(db, d, PkCell(pks[i])) {
      PkCellClass(db, serial, pks, fks, i);
    }
    CopyToSerialEffect(d, serial, pks);
    var r := ApplyAll(PkStatements(CopyToSerial(serial), pks), d).value;
    forall i | 0 <= i < |pks| ensures Agree(d, r, TempCell(pks[i])) {
      TempCellClass(db, serial, pks, fks, i);
    }
    TempsKept(db, d, r, pks);
  }

  lemma DropFkStep(db: Db, pre: seq<Statement>, serial: string, pks: seq<PkRow>, fks: seq<FkRow>)
    requires ForeignKeysFit(db, serial, pks, fks)
    requires var d := ApplyAll(pre, db); d.Some? && d.value.constraints == db.constraints && Prepared(db, d.value, serial, pks)
    ensures var r := ApplyAll(pre + FkStatements(DropFk, fks), db);
            r.Some? && r.value.constraints == db.constraints - FkKeys(fks) && Prepared(db, r.value, serial, pks)
  {
    ApplyAllAppend(pre, FkStatements(DropFk, fks), db);
    DropFkEffect(ApplyAll(pre, db).value, fks);
  }

  /** Either retype pass leaves the database as it found it. */
  lemma RetypeStep(db: Db, pre: seq<Statement>, fks: seq<FkRow>, dataType: string)
    requires var d := ApplyAll(pre, db); d.Some? && forall i :: 0 <= i < |fks| ==> FkCell(fks[i]) in d.value.cols
    ensures ApplyAll(pre + FkStatements(RetypeFk(dataType), fks), db) == ApplyAll(pre, db)
  {
    ApplyAllAppend(pre, FkStatements(RetypeFk(dataType), fks), db);
    RetypeEffect(ApplyAll(pre, db).value, fks, dataType);
  }

  lemma PropagateStep(db: Db, pre: seq<Statement>, serial: string, pks: seq<PkRow>, fks: seq<FkRow>)
    requires KeysFit(db, pks) && SerialFits(serial, pks) && ForeignKeysFit(db, serial, pks, fks)
    requires var d := ApplyAll(pre, db); d.Some? && Prepared(db, d.value, serial, pks)
    ensures var r := ApplyAll(pre + FkStatements(PropagateToFk, fks), db);
            r.Some? && r.value.constraints == ApplyAll(pre, db).value.constraints
            && Propagating(db, r.value, serial, pks, fks)
  {
    var d := ApplyAll(pre, db).value;
    ApplyAllAppend(pre, FkStatements(PropagateToFk, fks), db);
    forall i | 0 <= i < |fks|
      ensures Agree(db, d, FkCell(fks[i])) && Agree(db, d, RefCell(fks[i])) && RefTemp(fks[i]) in d.cols
      ensures !IsPk(pks, FkCell(fks[i])) && !IsTemp(pks, FkCell(fks[i]))
      ensures IsPk(pks, RefCell(fks[i])) && IsTemp(pks, RefTemp(fks[i]))
    {
      FkCellClass(db, serial, pks, fks, i);
    }
    PropagateEffect(d, fks);
    var r := ApplyAll(FkStatements(PropagateToFk, fks), d).value;
    forall i | 0 <= i < |pks| ensures Agree(d, r, TempCell(pks[i])) && Agree(d, r, SerialCell(serial, pks[i])) {
      TempCellClass(db, serial, pks, fks, i);
      SerialCellClass(db, serial, pks, fks, i);
    }
    TempsKept(db, d, r, pks);
    SerialsKept(db, d, r, serial, pks);
    forall i | 0 <= i < |fks| ensures Agree(d, r, RefTemp(fks[i])) {
      FkCellClass(db, serial, pks, fks, i);
    }
  }

  lemma CastStep(db: Db, pre: seq<Statement>, serial: string, pks: seq<PkRow>, fks: seq<FkRow>, later: seq<PkRow>)
    requires KeysFit(db, pks) && SerialFits(serial, pks) && ForeignKeysFit(db, serial, pks, fks) && Requeried(later, pks)
    requires NoKeyDefaults(db, pks)
    requires var d := ApplyAll(pre, db); d.Some? && Propagating(db, d.value, serial, pks, fks)
    ensures var r := ApplyAll(pre + PkStatements(PkToUuid, later), db);
            r.Some? && r.value.constraints == ApplyAll(pre, db).value.constraints
            && KeysCast(db, r.value, serial, pks, fks)
  {
    var d := ApplyAll(pre, db).value;
    ApplyAllAppend(pre, PkStatements(PkToUuid, later), db);
    forall i | 0 <= i < |pks| ensures PkCell(pks[i]) in d.cols && PkCell(pks[i]) !in d.defaults {
      PkCellClass(db, serial, pks, fks, i);
    }
    CastEffect(d, later);
    var r := ApplyAll(PkStatements(PkToUuid, later), d).value;
    forall k | IsPk(later, k) ensures IsPk(pks, k) {
      var i :| 0 <= i < |later| && PkCell(later[i]) == k;
    }
    forall i | 0 <= i < |pks| ensures Agree(d, r, TempCell(pks[i])) && Agree(d, r, SerialCell(serial, pks[i])) {
      TempCellClass(db, serial, pks, fks, i);
      SerialCellClass(db, serial, pks, fks, i);
    }
    TempsKept(db, d, r, pks);
    SerialsKept(db, d, r, serial, pks);
    forall i | 0 <= i < |fks| ensures Agree(d, r, FkCell(fks[i])) && Agree(d, r, RefTemp(fks[i])) {
      FkCellClass(db, serial, pks, fks, i);
    }
    FksKept(db, d, r, fks);
  }

  lemma TempToPkStep(db: Db, pre: seq<Statement>, serial: string, pks: seq<PkRow>, fks: seq<FkRow>)
    requires KeysFit(db, pks) && SerialFits(serial, pks) && ForeignKeysFit(db, serial, pks, fks)
    requires var d := ApplyAll(pre, db); d.Some? && KeysCast(db, d.value, serial, pks, fks)
    ensures var r := ApplyAll(pre + PkStatements(TempToPk, pks), db);
            r.Some? && r.value.constraints == ApplyAll(pre, db).value.constraints
            && KeysCast(db, r.value, serial, pks, fks) && KeysReplaced(db, r.value, pks)
  {
    var d := ApplyAll(pre, db).value;
    ApplyAllAppend(pre, PkStatements(TempToPk, pks), db);
    TempToPkEffect(d, pks);
    var r := ApplyAll(PkStatements(TempToPk, pks), d).value;
    forall i | 0 <= i < |pks| ensures Agree(d, r, TempCell(pks[i])) && Agree(d, r, SerialCell(serial, pks[i])) {
      TempCellClass(db, serial, pks, fks, i);
      SerialCellClass(db, serial, pks, fks, i);
    }
    TempsKept(db, d, r, pks);
    SerialsKept(db, d, r, serial, pks);
    forall i | 0 <= i < |fks| ensures Agree(d, r, FkCell(fks[i])) && Agree(d, r, RefTemp(fks[i])) {
      FkCellClass(db, serial, pks, fks, i);
    }
    FksKept(db, d, r, fks);
  }

  lemma RecreateStep(db: Db, pre: seq<Statement>, serial: string, pks: seq<PkRow>, fks: seq<FkRow>)
    requires KeysFit(db, pks) && SerialFits(serial, pks) && ForeignKeysFit(db, serial, pks, fks) && Integrity(db, fks)
    requires var d := ApplyAll(pre, db);
             d.Some? && d.value.constraints == db.constraints - FkKeys(fks)
             && KeysCast(db, d.value, serial, pks, fks) && KeysReplaced(db, d.value, pks)
    ensures var r := ApplyAll(pre + FkStatements(RecreateFk, fks), db);
            r.Some? && Replaced(db, r.value, serial, pks, fks)
  {
    var d := ApplyAll(pre, db).value;
    ApplyAllAppend(pre, FkStatements(RecreateFk, fks), db);
    forall i | 0 <= i < |fks|
      ensures ConstraintKey(fks[i]) !in d.constraints
      ensures RefCell(fks[i]) in d.cols && Referenced(d.cols[FkCell(fks[i])], d.cols[RefCell(fks[i])])
    {
      assert ConstraintKey(fks[i]) in FkKeys(fks);
      FkCellClass(db, serial, pks, fks, i);
      PropagatedReferenced(db.cols[FkCell(fks[i])], db.cols[RefCell(fks[i])], d.cols[RefTemp(fks[i])]);
    }
    RecreateEffect(d, fks);
    RecreatedState(db, d, ApplyAll(FkStatements(RecreateFk, fks), d).value, serial, pks, fks);
  }

  lemma RecreatedState(db: Db, d: Db, r: Db, serial: string, pks: seq<PkRow>, fks: seq<FkRow>)
    requires KeysCast(db, d, serial, pks, fks) && KeysReplaced(db, d, pks)
    requires d.constraints == db.constraints - FkKeys(fks) && r.cols == d.cols
    requires forall i :: 0 <= i < |fks| ==>
               ConstraintKey(fks[i]) in r.constraints
               && r.constraints[ConstraintKey(fks[i])] == Reference(fks[i].columnName, RefTable(fks[i]), fks[i].foreignColumnName)
    requires forall k :: k !in FkKeys(fks) ==>
               (k in r.constraints <==> k in d.constraints) && (k in d.constraints ==> r.constraints[k] == d.constraints[k])
    ensures Replaced(db, r, serial, pks, fks)
  {
    assert ConstraintsRecreated(db, r, fks);
    assert KeysReplaced(db, r, pks) && TempsFilled(db, r, pks);
    assert SerialsCopied(db, r, serial, pks) && FksPropagated(db, r, fks);
  }

  // ---------------------------------------------------------------------------
  // The whole session
  // ---------------------------------------------------------------------------

  /** The primary-key phases 1 to 4. */
  lemma PrepStage(db: Db, serial: string, pks: seq<PkRow>, fks: seq<FkRow>)
    requires KeysFit(db, pks) && SerialFits(serial, pks) && ForeignKeysFit(db, serial, pks, fks)
    ensures var r := ApplyAll(PkStatements(AddTemp, pks) + PkStatements(AssignTemp, pks)
                              + PkStatements(AddSerial(serial), pks) + PkStatements(CopyToSerial(serial), pks), db);
            r.Some? && r.value.constraints == db.constraints && Prepared(db, r.value, serial, pks)
  {
    var s1, s2 := PkStatements(AddTemp, pks), PkStatements(AssignTemp, pks);
    var s3 := PkStatements(AddSerial(serial), pks);
    AddTempEffect(db, pks);
    AssignTempStep(db, s1, pks);
    AddSerialStep(db, s1 + s2, serial, pks, fks);
    CopyToSerialStep(db, s1 + s2 + s3, serial, pks, fks);
  }

  /** Phases 1 to 8: everything before the re-query. */
  lemma EarlyStage(db: Db, serial: string, pks: seq<PkRow>, fks: seq<FkRow>)
    requires KeysFit(db, pks) && SerialFits(serial, pks) && ForeignKeysFit(db, serial, pks, fks)
    ensures var r := ApplyAll(EarlyStatements(serial, pks, fks), db);
            r.Some? && r.value.constraints == db.constraints - FkKeys(fks) && Propagating(db, r.value, serial, pks, fks)
  {
    var p4 := PkStatements(AddTemp, pks) + PkStatements(AssignTemp, pks)
              + PkStatements(AddSerial(serial), pks) + PkStatements(CopyToSerial(serial), pks);
    var s5, s6, s7 := FkStatements(DropFk, fks), FkStatements(RetypeFk("varchar"), fks), FkStatements(PropagateToFk, fks);
    PrepStage(db, serial, pks, fks);
    DropFkStep(db, p4, serial, pks, fks);
    forall i | 0 <= i < |fks| ensures FkCell(fks[i]) in ApplyAll(p4 + s5, db).value.cols {
      FkCellClass(db, serial, pks, fks, i);
    }
    RetypeStep(db, p4 + s5, fks, "varchar");
    PropagateStep(db, p4 + s5 + s6, serial, pks, fks);
    RetypeStep(db, p4 + s5 + s6 + s7, fks, "uuid");
  }

  /** Phases 9 to 11, after the statements `early`. */
  lemma LateStage(db: Db, early: seq<Statement>, serial: string, pks: seq<PkRow>, fks: seq<FkRow>, later: seq<PkRow>)
    requires KeysFit(db, pks) && SerialFits(serial, pks) && ForeignKeysFit(db, serial, pks, fks)
    requires Requeried(later, pks) && Integrity(db, fks) && NoKeyDefaults(db, pks)
    requires var d := ApplyAll(early, db);
             d.Some? && d.value.constraints == db.constraints - FkKeys(fks) && Propagating(db, d.value, serial, pks, fks)
    ensures var r := ApplyAll(early + PkStatements(PkToUuid, later) + PkStatements(TempToPk, pks) + FkStatements(RecreateFk, fks), db);
            r.Some? && Replaced(db, r.value, serial, pks, fks)
  {
    var s9, s10 := PkStatements(PkToUuid, later), PkStatements(TempToPk, pks);
    CastStep(db, early, serial, pks, fks, later);
    TempToPkStep(db, early + s9, serial, pks, fks);
    RecreateStep(db, early + s9 + s10, serial, pks, fks);
  }

  /**
   * On a database the catalog describes, every statement of a completed
   * session succeeds, in `execute`'s order, and leaves each key column holding
   * new uuids, the serial columns holding the old keys, the foreign-key values
   * looked up from old keys to new ones, and the constraints re-created.
   */
  lemma SessionEffect(db: Db, serial: string, pks: seq<PkRow>, fks: seq<FkRow>, later: seq<PkRow>)
    requires KeysFit(db, pks) && SerialFits(serial, pks) && ForeignKeysFit(db, serial, pks, fks)
    requires Requeried(later, pks) && Integrity(db, fks) && NoKeyDefaults(db, pks)
    ensures var r := ApplyAll(EarlyStatements(serial, pks, fks) + LateStatements(later, pks, fks), db);
            r.Some? && Replaced(db, r.value, serial, pks, fks)
  {
    var early := EarlyStatements(serial, pks, fks);
    var s9, s10, s11 := PkStatements(PkToUuid, later), PkStatements(TempToPk, pks), FkStatements(RecreateFk, fks);
    EarlyStage(db, serial, pks, fks);
    LateStage(db, early, serial, pks, fks, later);
    AppendAssoc(early, s9, s10, s11);
  }

  lemma AppendAssoc<T>(e: seq<T>, a: seq<T>, b: seq<T>, c: seq<T>)
    ensures e + (a + b + c) == e + a + b + c
  {
  }

  lemma AppendAssoc3<T>(a: seq<T>, b: seq<T>, c: seq<T>)
    ensures a + b + c == a + (b + c)
  {
  }

  /** The new key column is still a key: its values are distinct. */
  lemma NewKeysDistinct(db: Db, r: Db, pks: seq<PkRow>, i: int)
    requires KeysReplaced(db, r, pks) && 0 <= i < |pks|
    ensures Distinct(r.cols[PkCell(pks[i])])
  {
    GenerateDistinct(PkTable(pks[i]), TempColumnName(pks[i].columnName), db.rows[PkTable(pks[i])]);
  }

  /**
   * Each foreign-key value that held the old key of row `n` of the table it
   * references now holds the new key of that same row; NULL stays NULL; and
   * every value names one of the new keys.
   */
  lemma ForeignKeysFollow(db: Db, r: Db, serial: string, pks: seq<PkRow>, fks: seq<FkRow>, i: int, j: int)
    requires KeysFit(db, pks) && Integrity(db, fks) && Replaced(db, r, serial, pks, fks)
    requires 0 <= i < |fks| && 0 <= j < |pks| && RefCell(fks[i]) == PkCell(pks[j])
    ensures var before, keys := db.cols[FkCell(fks[i])], db.cols[PkCell(pks[j])];
            var after, newKeys := r.cols[FkCell(fks[i])], r.cols[PkCell(pks[j])];
            |after| == |before|
            && (forall m, n :: 0 <= m < |before| && 0 <= n < |keys| && before[m] != Null && before[m] == keys[n]
                  ==> after[m] == newKeys[n])
            && (forall m :: 0 <= m < |before| && before[m] == Null ==> after[m] == Null)
            && Referenced(after, newKeys)
  {
    var before, keys := db.cols[FkCell(fks[i])], db.cols[PkCell(pks[j])];
    assert RefTemp(fks[i]) == TempCell(pks[j]);
    var temps := r.cols[RefTemp(fks[i])];
    PropagatedMatches(before, keys, temps);
    PropagatedReferenced(before, keys, temps);
  }

  // ---------------------------------------------------------------------------
  // Key defaults: the session as written, and with the defaults dropped first
  // ---------------------------------------------------------------------------

  lemma {:induction false} FlattenHas<T>(parts: seq<seq<T>>, x: T)
    requires x in Flatten(parts)
    ensures exists i :: 0 <= i < |parts| && x in parts[i]
    decreases |parts|
  {
    var n := |parts|;
    if x !in parts[n - 1] {
      FlattenHas(parts[..n - 1], x);
      var i :| 0 <= i < n - 1 && x in parts[..n - 1][i];
      assert parts[..n - 1][i] == parts[i];
    }
  }

  lemma PkKeepsDefaults(phase: PkPhase, rows: seq<PkRow>)
    requires !phase.DropPkDefault?
    ensures KeepsDefaults(PkStatements(phase, rows))
  {
    forall s | s in PkStatements(phase, rows) ensures !s.DropDefault? {
      var parts := PkStatementParts(phase, rows);
      FlattenHas(parts, s);
      var i :| 0 <= i < |parts| && s in parts[i];
    }
  }

  lemma FkKeepsDefaults(phase: FkPhase, rows: seq<FkRow>)
    ensures KeepsDefaults(FkStatements(phase, rows))
  {
    forall s | s in FkStatements(phase, rows) ensures !s.DropDefault? {
      var parts := FkStatementParts(phase, rows);
      FlattenHas(parts, s);
      var i :| 0 <= i < |parts| && s in parts[i];
    }
  }

  /** `execute` never drops a default before the uuid cast. */
  lemma EarlyKeepsDefaults(serial: string, pks: seq<PkRow>, fks: seq<FkRow>)
    ensures KeepsDefaults(EarlyStatements(serial, pks, fks))
  {
    PkKeepsDefaults(AddTemp, pks);
    PkKeepsDefaults(AssignTemp, pks);
    PkKeepsDefaults(AddSerial(serial), pks);
    PkKeepsDefaults(CopyToSerial(serial), pks);
    FkKeepsDefaults(DropFk, fks);
    FkKeepsDefaults(RetypeFk("varchar"), fks);
    FkKeepsDefaults(PropagateToFk, fks);
    FkKeepsDefaults(RetypeFk("uuid"), fks);
  }

  /** The uuid cast phase is refused when a key column it casts still has a default. */
  lemma CastBlocked(d: Db, pks: seq<PkRow>, later: seq<PkRow>, i: int)
    requires Requeried(later, pks)
    requires 0 <= i < |pks| && PkCell(pks[i]) in d.defaults
    ensures ApplyAll(PkStatements(PkToUuid, later), d) == None
  {
    var s9 := PkStatements(PkToUuid, later);
    var j :| 0 <= j < |later| && PkCell(later[j]) == PkCell(pks[i]) && later[j].dataType != "uuid";
    var targets := NotUuid(later);
    PkToUuidSkips(later);
    NotUuidMembers(later, later[j]);
    var m :| 0 <= m < |targets| && targets[m] == later[j];
    assert Write(s9[m]) == PkCell(later[j]);
    CastsFail(s9, d, m);
  }

  /** A failed batch stays failed whatever follows it. */
  lemma NoneThen(a: seq<Statement>, rest: seq<Statement>, db: Db)
    requires ApplyAll(a, db) == None
    ensures ApplyAll(a + rest, db) == None
  {
    ApplyAllAppend(a, rest, db);
  }

  /** A batch that fails right after `early` fails the whole session. */
  lemma FailsAfter(early: seq<Statement>, a: seq<Statement>, rest: seq<Statement>, db: Db)
    requires ApplyAll(early, db).Some? ==> ApplyAll(a, ApplyAll(early, db).value) == None
    ensures ApplyAll(early + (a + rest), db) == None
  {
    ApplyAllAppend(early, a + rest, db);
    if ApplyAll(early, db).Some? {
      NoneThen(a, rest, ApplyAll(early, db).value);
    }
  }

  /**
   * The session as `execute` runs it fails on any database in which a key
   * column has a default (a `serial` key's `nextval`): nothing drops the
   * default, so the uuid cast of that column is refused.
   */
  lemma KeyDefaultBlocksSession(db: Db, serial: string, pks: seq<PkRow>, fks: seq<FkRow>, later: seq<PkRow>, i: int)
    requires Requeried(later, pks)
    requires 0 <= i < |pks| && PkCell(pks[i]) in db.defaults
    ensures ApplyAll(EarlyStatements(serial, pks, fks) + LateStatements(later, pks, fks), db) == None
  {
    var early := EarlyStatements(serial, pks, fks);
    if ApplyAll(early, db).Some? {
      EarlyKeepsDefaults(serial, pks, fks);
      CastBlocked(ApplyAll(early, db).value, pks, later, i);
    }
    var s9, s10, s11 := PkStatements(PkToUuid, later), PkStatements(TempToPk, pks), FkStatements(RecreateFk, fks);
    AppendAssoc3(s9, s10, s11);
    FailsAfter(early, s9, s10 + s11, db);
  }

  /** The session's statements after `_drop_column_default_value` has run over the primary keys. */
  function DefaultFreeStatements(serial: string, pks: seq<PkRow>, fks: seq<FkRow>, later: seq<PkRow>): seq<Statement>
  {
    PkStatements(DropPkDefault, pks) + (EarlyStatements(serial, pks, fks) + LateStatements(later, pks, fks))
  }

  lemma DropDefaultStatements(pks: seq<PkRow>)
    ensures var ss := PkStatements(DropPkDefault, pks);
            |ss| == |pks| && forall i :: 0 <= i < |ss| ==> ss[i] == DropDefault(PkTable(pks[i]), pks[i].columnName)
  {
    var ss := PkStatements(DropPkDefault, pks);
    PkOnePerRow(DropPkDefault, pks);
    forall i | 0 <= i < |ss| ensures ss[i] == DropDefault(PkTable(pks[i]), pks[i].columnName) {
      assert [ss[i]] == PkRowStatements(DropPkDefault, pks[i]);
    }
  }

  /** The assumptions and the conclusion of `SessionEffect` read no defaults. */
  lemma SameKeysFit(db: Db, db0: Db, pks: seq<PkRow>)
    requires db0.rows == db.rows && db0.cols == db.cols
    ensures KeysFit(db0, pks) == KeysFit(db, pks)
  {
  }

  lemma SameForeignKeysFit(db: Db, db0: Db, serial: string, pks: seq<PkRow>, fks: seq<FkRow>)
    requires db0.rows == db.rows && db0.cols == db.cols && db0.constraints == db.constraints
    ensures ForeignKeysFit(db0, serial, pks, fks) == ForeignKeysFit(db, serial, pks, fks)
  {
  }

  lemma SameIntegrity(db: Db, db0: Db, fks: seq<FkRow>)
    requires db0.rows == db.rows && db0.cols == db.cols && db0.constraints == db.constraints
    ensures Integrity(db0, fks) == Integrity(db, fks)
  {
  }

  lemma SameReplaced(db: Db, db0: Db, r: Db, serial: string, pks: seq<PkRow>, fks: seq<FkRow>)
    requires db0.rows == db.rows && db0.cols == db.cols && db0.constraints == db.constraints
    ensures Replaced(db0, r, serial, pks, fks) == Replaced(db, r, serial, pks, fks)
  {
  }

  /**
   * With the key defaults dropped first, the session succeeds on every
   * database the catalog describes, defaults or not, and replaces the keys.
   */
  lemma SessionEffectDroppingDefaults(db: Db, serial: string, pks: seq<PkRow>, fks: seq<FkRow>, later: seq<PkRow>)
    requires KeysFit(db, pks) && SerialFits(serial, pks) && ForeignKeysFit(db, serial, pks, fks)
    requires Requeried(later, pks) && Integrity(db, fks)
    ensures var r := ApplyAll(DefaultFreeStatements(serial, pks, fks, later), db);
            r.Some? && Replaced(db, r.value, serial, pks, fks) && NoKeyDefaults(r.value, pks)
  {
    var s0 := PkStatements(DropPkDefault, pks);
    var rest := EarlyStatements(serial, pks, fks) + LateStatements(later, pks, fks);
    DropDefaultStatements(pks);
    DropDefaultsRemove(s0, db);
    var db0 := db.(defaults := db.defaults - DefaultCells(s0));
    assert NoKeyDefaults(db0, pks) by {
      forall i | 0 <= i < |pks| ensures PkCell(pks[i]) in DefaultCells(s0) {
        assert (s0[i].table, s0[i].column) == PkCell(pks[i]);
      }
    }
    SameKeysFit(db, db0, pks);
    SameForeignKeysFit(db, db0, serial, pks, fks);
    SameIntegrity(db, db0, fks);
    ApplyAllAppend(s0, rest, db);
    SessionEffect(db0, serial, pks, fks, later);
    SameReplaced(db, db0, ApplyAll(rest, db0).value, serial, pks, fks);
  }
}
