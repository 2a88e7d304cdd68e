/**
 * What the statements do to the database once PostgreSQL has run them, told
 * column by column: enough to follow the three value-moving updates (the copy
 * to the serial column, the propagation into the foreign keys, the copy of the
 * temp column into the key) and the foreign-key constraints.  A batch of
 * statements runs like the session's transaction: the first one that fails
 * ends it.
 */
module Effects {
  import opened Wrappers
  import opened SqlBuilder

  /** A cell's value, told apart only as far as these statements tell values apart. */
  datatype Value =
    | Null
    | Id(n: int)                                          // an original key value
    | Generated(table: string, column: string, row: nat)  // what `gen_random_uuid()` gave that cell
    | HexCast(original: Value)                            // `cast(lpad(to_hex(v), 32, '0') as uuid)`

  /** A column of a table: (qualified table name, column name). */
  type Cell = (string, string)

  /** A foreign-key constraint: its column, and the table and column it references. */
  datatype Reference = Reference(column: string, foreignTable: string, foreignColumn: string)

  /**
   * The number of rows of each table, the values of each column (row `i` of the
   * table at index `i`), the foreign-key constraints keyed by (table, name), and
   * the integer columns that have a default expression (a `serial` key's
   * `nextval(...)`), which PostgreSQL cannot convert to uuid.
   */
  datatype Db = Db(rows: map<string, nat>, cols: map<Cell, seq<Value>>, constraints: map<Cell, Reference>,
                   defaults: set<Cell>)

  function Nulls(n: nat): (vs: seq<Value>)
    ensures |vs| == n && forall i :: 0 <= i < n ==> vs[i] == Null
  {
    seq(n, _ => Null)
  }

  /** `set column = gen_random_uuid()`: one new uuid per row. */
  function Generate(table: string, column: string, n: nat): (vs: seq<Value>)
    ensures |vs| == n && forall i :: 0 <= i < n ==> vs[i] == Generated(table, column, i)
  {
    seq(n, i requires 0 <= i => Generated(table, column, i))
  }

  /** The primary-key cast to uuid; NULL stays NULL, and distinct keys stay distinct. */
  function Cast(vs: seq<Value>): (ws: seq<Value>)
    ensures |ws| == |vs|
    ensures forall i :: 0 <= i < |vs| ==> ws[i] == if vs[i] == Null then Null else HexCast(vs[i])
    ensures forall i, j :: 0 <= i < |vs| && 0 <= j < |vs| ==> (ws[i] == ws[j] <==> vs[i] == vs[j])
  {
    seq(|vs|, i requires 0 <= i < |vs| => if vs[i] == Null then Null else HexCast(vs[i]))
  }

  /**
   * One row of `update a set c = x.temp from x where a.c = x.key`: the temp
   * value of the first row of `x` whose key is `v`, or `v` itself when no row
   * matches (NULL matches nothing).
   */
  function Lookup(v: Value, keys: seq<Value>, temps: seq<Value>): Value
    decreases |keys|
  {
    if v == Null || keys == [] || temps == [] then v
    else if keys[0] == v then temps[0]
    else Lookup(v, keys[1..], temps[1..])
  }

  /** The propagation update on a whole foreign-key column. */
  function Propagated(fk: seq<Value>, keys: seq<Value>, temps: seq<Value>): (ws: seq<Value>)
    ensures |ws| == |fk| && forall i :: 0 <= i < |fk| ==> ws[i] == Lookup(fk[i], keys, temps)
  {
    seq(|fk|, i requires 0 <= i < |fk| => Lookup(fk[i], keys, temps))
  }

  /** Every non-NULL value of `fk` occurs in `keys`: what adding a foreign key checks. */
  predicate Referenced(fk: seq<Value>, keys: seq<Value>)
  {
    forall i :: 0 <= i < |fk| ==> fk[i] == Null || fk[i] in keys
  }

  predicate Distinct(vs: seq<Value>)
  {
    forall i, j :: 0 <= i < |vs| && 0 <= j < |vs| && i != j ==> vs[i] != vs[j]
  }

  // ---------------------------------------------------------------------------
  // One statement
  // ---------------------------------------------------------------------------

  /** The statements that rewrite one column, the one `Write` names. */
  predicate Rewrites(s: Statement)
  {
    s.AddColumn? || s.UpdateColumn? || s.CopyPkValuesToFk? || s.AlterColumnDatatype? || s.AlterPkColumnToUuid?
  }

  function Write(s: Statement): Cell
    requires Rewrites(s)
  {
    (s.table, s.column)
  }

  /** The columns whose presence and values a rewriting statement depends on. */
  function Reads(s: Statement): (cells: set<Cell>)
    requires Rewrites(s)
    ensures Write(s) in cells
  {
    match s
    case UpdateColumn(t, c, v) => if v == RandomUuid then {(t, c)} else {(t, c), (t, v)}
    case CopyPkValuesToFk(t, c, temp, ft, fc) => {(t, c), (ft, temp), (ft, fc)}
    case _ => {(s.table, s.column)}
  }

  /** The new values of the column a rewriting statement writes, or None when PostgreSQL refuses it. */
  function NewColumn(s: Statement, db: Db): Option<seq<Value>>
    requires Rewrites(s)
  {
    match s
    case AddColumn(t, c, _) =>
      if t !in db.rows then None
      else if (t, c) in db.cols then Some(db.cols[(t, c)])   // `if not exists`
      else Some(Nulls(db.rows[t]))
    case UpdateColumn(t, c, v) =>
      if t !in db.rows || (t, c) !in db.cols then None
      else if v == RandomUuid then Some(Generate(t, c, db.rows[t]))
      else if (t, v) in db.cols then Some(db.cols[(t, v)])
      else None
    case CopyPkValuesToFk(t, c, temp, ft, fc) =>
      if (t, c) !in db.cols || (ft, temp) !in db.cols || (ft, fc) !in db.cols then None
      else Some(Propagated(db.cols[(t, c)], db.cols[(ft, fc)], db.cols[(ft, temp)]))
    case AlterColumnDatatype(t, c, _) =>
      if (t, c) in db.cols then Some(db.cols[(t, c)]) else None
    case AlterPkColumnToUuid(t, c) =>
      // PostgreSQL also converts the column's default, and an integer default has no cast to uuid
      if (t, c) in db.cols && (t, c) !in db.defaults then Some(Cast(db.cols[(t, c)])) else None
  }

  function Rewrite(s: Statement, db: Db): Option<Db>
    requires Rewrites(s)
  {
    match NewColumn(s, db)
    case None => None
    case Some(vs) => Some(db.(cols := db.cols[Write(s) := vs]))
  }

  /** Runs one statement; None when PostgreSQL raises on it. */
  function Apply(s: Statement, db: Db): (r: Option<Db>)
    ensures r.Some? ==> r.value.rows == db.rows && r.value.defaults <= db.defaults
    ensures r.Some? && !s.DropDefault? ==> r.value.defaults == db.defaults
  {
    match s
    case DropDefault(t, c) =>
      if t !in db.rows then Some(db)
      else if (t, c) !in db.cols then None
      else Some(db.(defaults := db.defaults - {(t, c)}))
    case DropConstraint(t, name) =>
      if t in db.rows then Some(db.(constraints := db.constraints - {(t, name)})) else None
    case CreateConstraint(t, name, c, ft, fc) =>
      if t in db.rows && (t, c) in db.cols && (ft, fc) in db.cols && (t, name) !in db.constraints
         && Referenced(db.cols[(t, c)], db.cols[(ft, fc)])
      then Some(db.(constraints := db.constraints[(t, name) := Reference(c, ft, fc)]))
      else None
    case AddColumn(_, _, _) => Rewrite(s, db)
    case UpdateColumn(_, _, _) => Rewrite(s, db)
    case CopyPkValuesToFk(_, _, _, _, _) => Rewrite(s, db)
    case AlterColumnDatatype(_, _, _) => Rewrite(s, db)
    case AlterPkColumnToUuid(_, _) => Rewrite(s, db)
  }

  /** Runs the statements in order; the first one that fails ends the batch. */
  function ApplyAll(ss: seq<Statement>, db: Db): (r: Option<Db>)
    ensures r.Some? ==> r.value.rows == db.rows && r.value.defaults <= db.defaults
    ensures r.Some? && KeepsDefaults(ss) ==> r.value.defaults == db.defaults
    decreases |ss|
  {
    if ss == [] then Some(db)
    else
      match Apply(ss[0], db)
      case None => None
      case Some(d) => ApplyAll(ss[1..], d)
  }

  /** No statement of `ss` drops a default. */
  predicate KeepsDefaults(ss: seq<Statement>)
  {
    forall s :: s in ss ==> !s.DropDefault?
  }

  // ---------------------------------------------------------------------------
  // Batches
  // ---------------------------------------------------------------------------

  /** Running `a` then `b` is running `a`, and then `b` on what it left, if it succeeded. */
  lemma {:induction false} ApplyAllAppend(a: seq<Statement>, b: seq<Statement>, db: Db)
    ensures ApplyAll(a + b, db) == if ApplyAll(a, db).None? then None else ApplyAll(b, ApplyAll(a, db).value)
    decreases |a|
  {
    if a == [] {
      assert a + b == b;
    } else {
      assert (a + b)[0] == a[0];
      assert (a + b)[1..] == a[1..] + b;
      match Apply(a[0], db)
      case None =>
      case Some(d) => ApplyAllAppend(a[1..], b, d);
    }
  }

  lemma ApplyAllSingle(s: Statement, db: Db)
    ensures ApplyAll([s], db) == Apply(s, db)
  {
    assert [s][1..] == [];
  }

  /** Two databases agree on column `k`: both lack it, or both hold the same values in it. */
  predicate Agree(db: Db, db': Db, k: Cell)
  {
    (k in db.cols <==> k in db'.cols) && (k in db.cols ==> db.cols[k] == db'.cols[k])
  }

  /** A rewriting statement computes the same column on databases that agree on what it reads. */
  lemma NewColumnFrame(s: Statement, db: Db, db': Db)
    requires Rewrites(s) && db.rows == db'.rows && db.defaults == db'.defaults
    requires forall k :: k in Reads(s) ==> Agree(db, db', k)
    ensures NewColumn(s, db) == NewColumn(s, db')
  {
    match s
    case AddColumn(t, c, _) => assert Agree(db, db', (t, c));
    case UpdateColumn(t, c, v) =>
      assert Agree(db, db', (t, c));
      if v != RandomUuid { assert Agree(db, db', (t, v)); }
    case CopyPkValuesToFk(t, c, temp, ft, fc) =>
      assert Agree(db, db', (t, c)) && Agree(db, db', (ft, temp)) && Agree(db, db', (ft, fc));
    case AlterColumnDatatype(t, c, _) => assert Agree(db, db', (t, c));
    case AlterPkColumnToUuid(t, c) => assert Agree(db, db', (t, c));
  }

  /** Some statement of `ss` writes column `k`. */
  predicate Writes(ss: seq<Statement>, k: Cell)
    requires forall i :: 0 <= i < |ss| ==> Rewrites(ss[i])
  {
    exists i :: 0 <= i < |ss| && Write(ss[i]) == k
  }

  /** No statement of `ss` reads a column another statement of `ss` writes. */
  predicate Independent(ss: seq<Statement>)
    requires forall i :: 0 <= i < |ss| ==> Rewrites(ss[i])
  {
    forall i, j :: 0 <= i < |ss| && 0 <= j < |ss| && i != j ==> Write(ss[j]) !in Reads(ss[i])
  }

  /**
   * Independent rewrites run one after another act as if they ran at once:
   * each written column gets what its statement computes from the original
   * database, and every other column is left as it was.
   */
  lemma {:induction false} ParallelEffect(ss: seq<Statement>, db: Db)
    requires forall i :: 0 <= i < |ss| ==> Rewrites(ss[i])
    requires forall i :: 0 <= i < |ss| ==> NewColumn(ss[i], db).Some?
    requires Independent(ss)
    ensures var r := ApplyAll(ss, db);
            r.Some? && r.value.constraints == db.constraints
            && (forall i :: 0 <= i < |ss| ==>
                  (Write(ss[i]) in r.value.cols && r.value.cols[Write(ss[i])] == NewColumn(ss[i], db).value))
            && (forall k :: !Writes(ss, k) ==> Agree(db, r.value, k))
    decreases |ss|
  {
    if ss != [] {
      var s, rest := ss[0], ss[1..];
      var d := db.(cols := db.cols[Write(s) := NewColumn(s, db).value]);
      assert Apply(s, db) == Some(d) by {
        assert Apply(s, db) == Rewrite(s, db);
      }
      assert ApplyAll(ss, db) == ApplyAll(rest, d);
      forall i | 0 <= i < |rest| ensures Rewrites(rest[i]) && NewColumn(rest[i], d) == NewColumn(ss[i + 1], db) {
        assert rest[i] == ss[i + 1];
        assert Write(s) !in Reads(ss[i + 1]);
        NewColumnFrame(ss[i + 1], db, d);
      }
      assert Independent(rest) by {
        forall i, j | 0 <= i < |rest| && 0 <= j < |rest| && i != j ensures Write(rest[j]) !in Reads(rest[i]) {
          assert rest[i] == ss[i + 1] && rest[j] == ss[j + 1];
        }
      }
      ParallelEffect(rest, d);
      ParallelHead(ss, db, d, ApplyAll(rest, d).value);
    }
  }

  /** The first statement's column survives the rest, and with it the whole of `ParallelEffect`. */
  lemma ParallelHead(ss: seq<Statement>, db: Db, d: Db, r: Db)
    requires ss != []
    requires forall i :: 0 <= i < |ss| ==> Rewrites(ss[i])
    requires forall i :: 0 <= i < |ss| ==> NewColumn(ss[i], db).Some?
    requires Independent(ss)
    requires d == db.(cols := db.cols[Write(ss[0]) := NewColumn(ss[0], db).value])
    requires forall i :: 0 <= i < |ss| - 1 ==> NewColumn(ss[1..][i], d) == NewColumn(ss[i + 1], db)
    requires r.constraints == d.constraints
    requires forall i :: 0 <= i < |ss[1..]| ==>
               (Write(ss[1..][i]) in r.cols && r.cols[Write(ss[1..][i])] == NewColumn(ss[1..][i], d).value)
    requires forall k :: !Writes(ss[1..], k) ==> Agree(d, r, k)
    ensures r.constraints == db.constraints
    ensures forall i :: 0 <= i < |ss| ==> (Write(ss[i]) in r.cols && r.cols[Write(ss[i])] == NewColumn(ss[i], db).value)
    ensures forall k :: !Writes(ss, k) ==> Agree(db, r, k)
  {
    var s, rest := ss[0], ss[1..];
    assert !Writes(rest, Write(s)) by {
      forall j | 0 <= j < |rest| ensures Write(rest[j]) != Write(s) {
        assert rest[j] == ss[j + 1];
        assert Write(s) !in Reads(ss[j + 1]);
      }
    }
    forall i | 0 <= i < |ss| ensures Write(ss[i]) in r.cols && r.cols[Write(ss[i])] == NewColumn(ss[i], db).value {
      if i > 0 { assert rest[i - 1] == ss[i]; }
    }
    forall k | !Writes(ss, k) ensures Agree(db, r, k) {
      assert k != Write(s);
      assert !Writes(rest, k) by {
        forall j | 0 <= j < |rest| ensures Write(rest[j]) != k {
          assert rest[j] == ss[j + 1];
        }
      }
    }
  }

  /** Type changes that keep every value leave the database as it was. */
  lemma {:induction false} RetypesKeep(ss: seq<Statement>, db: Db)
    requires forall i :: 0 <= i < |ss| ==> ss[i].AlterColumnDatatype? && Write(ss[i]) in db.cols
    ensures ApplyAll(ss, db) == Some(db)
    decreases |ss|
  {
    if ss != [] {
      var s := ss[0];
      assert Apply(s, db) == Rewrite(s, db);
      assert db.cols[Write(s) := db.cols[Write(s)]] == db.cols;
      assert db.(cols := db.cols) == db;
      RetypesKeep(ss[1..], db);
    }
  }

  /** The uuid casts change only the columns they cast, and keep every column there is. */
  lemma {:induction false} CastsFrame(ss: seq<Statement>, db: Db)
    requires forall i :: 0 <= i < |ss| ==>
               ss[i].AlterPkColumnToUuid? && Write(ss[i]) in db.cols && Write(ss[i]) !in db.defaults
    ensures var r := ApplyAll(ss, db);
            r.Some? && r.value.constraints == db.constraints
            && (forall k :: k in r.value.cols <==> k in db.cols)
            && (forall k :: !Writes(ss, k) ==> Agree(db, r.value, k))
    decreases |ss|
  {
    if ss != [] {
      var s := ss[0];
      assert Apply(s, db) == Rewrite(s, db);
      var d := db.(cols := db.cols[Write(s) := Cast(db.cols[Write(s)])]);
      assert Apply(s, db) == Some(d);
      CastsFrame(ss[1..], d);
      forall k | !Writes(ss, k) ensures Agree(db, ApplyAll(ss, db).value, k) {
        assert Write(ss[0]) != k;
        assert !Writes(ss[1..], k) by {
          forall j | 0 <= j < |ss[1..]| ensures Write(ss[1..][j]) != k {
            assert ss[1..][j] == ss[j + 1];
          }
        }
      }
    }
  }

  /** A batch of uuid casts fails when one of them casts a column that has a default. */
  lemma {:induction false} CastsFail(ss: seq<Statement>, db: Db, m: nat)
    requires forall i :: 0 <= i < |ss| ==> ss[i].AlterPkColumnToUuid?
    requires m < |ss| && Write(ss[m]) in db.defaults
    ensures ApplyAll(ss, db) == None
    decreases |ss|
  {
    var s := ss[0];
    assert Apply(s, db) == Rewrite(s, db);
    if m > 0 {
      match Apply(s, db)
      case None =>
      case Some(d) =>
        assert ss[1..][m - 1] == ss[m];
        CastsFail(ss[1..], d, m - 1);
    }
  }

  /** The columns whose defaults `ss` drops. */
  function DefaultCells(ss: seq<Statement>): set<Cell>
    requires forall i :: 0 <= i < |ss| ==> ss[i].DropDefault?
  {
    set i | 0 <= i < |ss| :: (ss[i].table, ss[i].column)
  }

  /** Dropping the defaults of columns there are removes exactly those defaults; no value changes. */
  lemma {:induction false} DropDefaultsRemove(ss: seq<Statement>, db: Db)
    requires forall i :: 0 <= i < |ss| ==>
               ss[i].DropDefault? && ss[i].table in db.rows && (ss[i].table, ss[i].column) in db.cols
    ensures ApplyAll(ss, db) == Some(db.(defaults := db.defaults - DefaultCells(ss)))
    decreases |ss|
  {
    if ss != [] {
      var s, rest := ss[0], ss[1..];
      var cell := (s.table, s.column);
      var d := db.(defaults := db.defaults - {cell});
      assert ApplyAll(ss, db) == ApplyAll(rest, d);
      forall i | 0 <= i < |rest| ensures rest[i].DropDefault? && rest[i].table in d.rows && (rest[i].table, rest[i].column) in d.cols {
        assert rest[i] == ss[i + 1];
      }
      DropDefaultsRemove(rest, d);
      assert DefaultCells(ss) == {cell} + DefaultCells(rest) by {
        forall k | k in DefaultCells(ss) ensures k in {cell} + DefaultCells(rest) {
          var i :| 0 <= i < |ss| && k == (ss[i].table, ss[i].column);
          if i > 0 { assert rest[i - 1] == ss[i]; }
        }
        forall k | k in DefaultCells(rest) ensures k in DefaultCells(ss) {
          var i :| 0 <= i < |rest| && k == (rest[i].table, rest[i].column);
          assert rest[i] == ss[i + 1];
        }
      }
      assert d.defaults - DefaultCells(rest) == db.defaults - DefaultCells(ss);
    } else {
      assert db.defaults - DefaultCells(ss) == db.defaults;
      assert db.(defaults := db.defaults) == db;
    }
  }

  /** The constraint keys `ss` drops or creates: (table, constraint name). */
  function ConstraintKeys(ss: seq<Statement>): set<Cell>
    requires forall i :: 0 <= i < |ss| ==> ss[i].DropConstraint? || ss[i].CreateConstraint?
  {
    set i | 0 <= i < |ss| :: (ss[i].table, ss[i].constraintName)
  }

  /** Dropping constraints (`if exists`) on tables there are removes exactly those constraints. */
  lemma {:induction false} DropsRemove(ss: seq<Statement>, db: Db)
    requires forall i :: 0 <= i < |ss| ==> ss[i].DropConstraint? && ss[i].table in db.rows
    ensures ApplyAll(ss, db) == Some(db.(constraints := db.constraints - ConstraintKeys(ss)))
    decreases |ss|
  {
    if ss != [] {
      var s, rest := ss[0], ss[1..];
      var key := (s.table, s.constraintName);
      var d := db.(constraints := db.constraints - {key});
      assert ApplyAll(ss, db) == ApplyAll(rest, d);
      forall i | 0 <= i < |rest| ensures rest[i].DropConstraint? && rest[i].table in d.rows {
        assert rest[i] == ss[i + 1];
      }
      DropsRemove(rest, d);
      KeysCons(ss);
      MinusMinus(db.constraints, {key}, ConstraintKeys(rest));
    } else {
      assert db.constraints - ConstraintKeys(ss) == db.constraints;
    }
  }

  lemma MinusMinus<K, V>(m: map<K, V>, a: set<K>, b: set<K>)
    ensures (m - a) - b == m - (a + b)
  {
    assert forall k :: k in (m - a) - b <==> k in m - (a + b);
  }

  lemma KeysCons(ss: seq<Statement>)
    requires ss != []
    requires forall i :: 0 <= i < |ss| ==> ss[i].DropConstraint? || ss[i].CreateConstraint?
    ensures ConstraintKeys(ss) == {(ss[0].table, ss[0].constraintName)} + ConstraintKeys(ss[1..])
  {
    var rest := ss[1..];
    forall k | k in ConstraintKeys(ss) ensures k in {(ss[0].table, ss[0].constraintName)} + ConstraintKeys(rest) {
      var i :| 0 <= i < |ss| && k == (ss[i].table, ss[i].constraintName);
      if i > 0 { assert rest[i - 1] == ss[i]; }
    }
    forall k | k in ConstraintKeys(rest) ensures k in ConstraintKeys(ss) {
      var i :| 0 <= i < |rest| && k == (rest[i].table, rest[i].constraintName);
      assert rest[i] == ss[i + 1];
    }
  }

  /**
   * Creating constraints with distinct, unused keys whose columns are all
   * referenced succeeds and adds each of them; no column changes.
   */
  lemma {:induction false} CreatesAdd(ss: seq<Statement>, db: Db)
    requires forall i :: 0 <= i < |ss| ==> ss[i].CreateConstraint?
    requires forall i :: 0 <= i < |ss| ==>
               var s := ss[i];
               s.table in db.rows && (s.table, s.column) in db.cols && (s.foreignTable, s.foreignColumn) in db.cols
               && (s.table, s.constraintName) !in db.constraints
               && Referenced(db.cols[(s.table, s.column)], db.cols[(s.foreignTable, s.foreignColumn)])
    requires forall i, j :: 0 <= i < |ss| && 0 <= j < |ss| && i != j ==>
               (ss[i].table, ss[i].constraintName) != (ss[j].table, ss[j].constraintName)
    ensures var r := ApplyAll(ss, db);
            r.Some? && r.value.cols == db.cols
            && (forall i :: 0 <= i < |ss| ==>
                  var s := ss[i];
                  (s.table, s.constraintName) in r.value.constraints
                  && r.value.constraints[(s.table, s.constraintName)] == Reference(s.column, s.foreignTable, s.foreignColumn))
            && (forall k :: k !in ConstraintKeys(ss) ==>
                  (k in r.value.constraints <==> k in db.constraints)
                  && (k in db.constraints ==> r.value.constraints[k] == db.constraints[k]))
    decreases |ss|
  {
    if ss != [] {
      var s := ss[0];
      var key := (s.table, s.constraintName);
      var d := db.(constraints := db.constraints[key := Reference(s.column, s.foreignTable, s.foreignColumn)]);
      assert Apply(s, db) == Some(d);
      var rest := ss[1..];
      forall i | 0 <= i < |rest| ensures (rest[i].table, rest[i].constraintName) !in d.constraints {
        assert rest[i] == ss[i + 1];
      }
      forall i, j | 0 <= i < |rest| && 0 <= j < |rest| && i != j
        ensures (rest[i].table, rest[i].constraintName) != (rest[j].table, rest[j].constraintName)
      {
        assert rest[i] == ss[i + 1] && rest[j] == ss[j + 1];
      }
      CreatesAdd(rest, d);
      CreatesStep(ss, db, d);
    }
  }

  lemma CreatesStep(ss: seq<Statement>, db: Db, d: Db)
    requires |ss| > 0
    requires forall i :: 0 <= i < |ss| ==> ss[i].CreateConstraint?
    requires forall i, j :: 0 <= i < |ss| && 0 <= j < |ss| && i != j ==>
               (ss[i].table, ss[i].constraintName) != (ss[j].table, ss[j].constraintName)
    requires d == db.(constraints := db.constraints[(ss[0].table, ss[0].constraintName)
                                                   := Reference(ss[0].column, ss[0].foreignTable, ss[0].foreignColumn)])
    requires ApplyAll(ss, db) == ApplyAll(ss[1..], d)
    requires var r := ApplyAll(ss[1..], d);
             r.Some? && r.value.cols == d.cols
             && (forall i :: 0 <= i < |ss[1..]| ==>
                   var s := ss[1..][i];
                   (s.table, s.constraintName) in r.value.constraints
                   && r.value.constraints[(s.table, s.constraintName)] == Reference(s.column, s.foreignTable, s.foreignColumn))
             && (forall k :: k !in ConstraintKeys(ss[1..]) ==>
                   (k in r.value.constraints <==> k in d.constraints)
                   && (k in d.constraints ==> r.value.constraints[k] == d.constraints[k]))
    ensures var r := ApplyAll(ss, db);
            r.Some? && r.value.cols == db.cols
            && (forall i :: 0 <= i < |ss| ==>
                  var s := ss[i];
                  (s.table, s.constraintName) in r.value.constraints
                  && r.value.constraints[(s.table, s.constraintName)] == Reference(s.column, s.foreignTable, s.foreignColumn))
            && (forall k :: k !in ConstraintKeys(ss) ==>
                  (k in r.value.constraints <==> k in db.constraints)
                  && (k in db.constraints ==> r.value.constraints[k] == db.constraints[k]))
  {
    var r := ApplyAll(ss, db).value;
    var key := (ss[0].table, ss[0].constraintName);
    assert key !in ConstraintKeys(ss[1..]) by {
      forall i | 0 <= i < |ss[1..]| ensures (ss[1..][i].table, ss[1..][i].constraintName) != key {
        assert ss[1..][i] == ss[i + 1];
      }
    }
    forall i | 0 <= i < |ss|
      ensures (ss[i].table, ss[i].constraintName) in r.constraints
              && r.constraints[(ss[i].table, ss[i].constraintName)]
                 == Reference(ss[i].column, ss[i].foreignTable, ss[i].foreignColumn)
    {
      if i > 0 { assert ss[1..][i - 1] == ss[i]; }
    }
    forall k | k !in ConstraintKeys(ss)
      ensures (k in r.constraints <==> k in db.constraints) && (k in db.constraints ==> r.constraints[k] == db.constraints[k])
    {
      assert k != key by { assert key == (ss[0].table, ss[0].constraintName); }
      assert k !in ConstraintKeys(ss[1..]) by {
        forall i | 0 <= i < |ss[1..]| ensures (ss[1..][i].table, ss[1..][i].constraintName) != k {
          assert ss[1..][i] == ss[i + 1];
        }
      }
    }
  }

  // ---------------------------------------------------------------------------
  // The propagation update
  // ---------------------------------------------------------------------------

  /** A value that matches exactly one key picks up that key's temp value. */
  lemma {:induction false} LookupFinds(v: Value, keys: seq<Value>, temps: seq<Value>, j: nat)
    requires v != Null && j < |keys| && j < |temps| && keys[j] == v
    requires forall i :: 0 <= i < j ==> keys[i] != v
    ensures Lookup(v, keys, temps) == temps[j]
    decreases j
  {
    if j > 0 {
      LookupFinds(v, keys[1..], temps[1..], j - 1);
    }
  }

  /** A value that matches no key is left as it was. */
  lemma {:induction false} LookupMisses(v: Value, keys: seq<Value>, temps: seq<Value>)
    requires forall i :: 0 <= i < |keys| ==> keys[i] != v
    ensures Lookup(v, keys, temps) == v
    decreases |keys|
  {
    if v != Null && keys != [] && temps != [] {
      assert keys[0] != v;
      LookupMisses(v, keys[1..], temps[1..]);
    }
  }

  /**
   * With distinct keys, each foreign-key value equal to some row's key gets
   * that row's temp value, and each value that equals no key (NULL included)
   * is left unchanged.
   */
  lemma PropagatedMatches(fk: seq<Value>, keys: seq<Value>, temps: seq<Value>)
    requires Distinct(keys) && |keys| == |temps|
    ensures var ws := Propagated(fk, keys, temps);
            |ws| == |fk|
            && (forall i, j :: 0 <= i < |fk| && 0 <= j < |keys| && fk[i] != Null && fk[i] == keys[j] ==> ws[i] == temps[j])
            && (forall i :: 0 <= i < |fk| && (fk[i] == Null || fk[i] !in keys) ==> ws[i] == fk[i])
  {
    var ws := Propagated(fk, keys, temps);
    forall i, j | 0 <= i < |fk| && 0 <= j < |keys| && fk[i] != Null && fk[i] == keys[j] ensures ws[i] == temps[j] {
      LookupFinds(fk[i], keys, temps, j);
    }
    forall i | 0 <= i < |fk| && (fk[i] == Null || fk[i] !in keys) ensures ws[i] == fk[i] {
      if fk[i] != Null { LookupMisses(fk[i], keys, temps); }
    }
  }

  /** A non-NULL value found among the keys picks up one of the temp values. */
  lemma {:induction false} LookupIn(v: Value, keys: seq<Value>, temps: seq<Value>)
    requires v != Null && v in keys && |keys| == |temps|
    ensures Lookup(v, keys, temps) in temps
    decreases |keys|
  {
    if keys[0] != v {
      LookupIn(v, keys[1..], temps[1..]);
    }
  }

  /** A column whose values all name keys ends up naming only temp values. */
  lemma PropagatedReferenced(fk: seq<Value>, keys: seq<Value>, temps: seq<Value>)
    requires Referenced(fk, keys) && |keys| == |temps|
    ensures Referenced(Propagated(fk, keys, temps), temps)
  {
    forall i | 0 <= i < |fk| && fk[i] != Null ensures Lookup(fk[i], keys, temps) in temps {
      LookupIn(fk[i], keys, temps);
    }
  }

  /** Generated values are distinct row by row. */
  lemma GenerateDistinct(table: string, column: string, n: nat)
    ensures Distinct(Generate(table, column, n))
  {
  }
}
