/**
 * The statement builders of IdReplacer (`_build_sql_*`, `_build_temp_column_name`,
 * `_build_table_name`, `_build_primary_key_update_command`).  A `Statement` is the
 * mutation intent the builders are called with; `Sql` renders it with the exact
 * template of the matching builder, whitespace included.
 */
module SqlBuilder {
  import opened Wrappers

  const TempSuffix := "_temp2replace"
  /** The placeholder left in the temp-column update and filled in by `str.format`. */
  const Placeholder := "{value}"
  /** The value expression written into every temp column. */
  const RandomUuid := "gen_random_uuid()"

  predicate MatchesAt(s: string, part: string, i: int) {
    0 <= i <= |s| - |part| && s[i..i + |part|] == part
  }

  /** `part` occurs in `s`. */
  predicate Contains(s: string, part: string) {
    exists i | 0 <= i <= |s| - |part| :: MatchesAt(s, part, i)
  }

  predicate StartsWith(s: string, prefix: string) {
    |prefix| <= |s| && s[..|prefix|] == prefix
  }

  lemma ContainsEnd(head: string, part: string)
    ensures Contains(head + part, part)
  {
    var s := head + part;
    assert s[|head|..|head| + |part|] == part;
    assert MatchesAt(s, part, |head|);
  }

  lemma ContainsMiddle(head: string, part: string, tail: string)
    ensures Contains(head + part + tail, part)
  {
    ContainsEnd(head, part);
    ContainsExtend(head + part, part, tail);
  }

  lemma ContainsPrepend(head: string, s: string, part: string)
    requires Contains(s, part)
    ensures Contains(head + s, part)
  {
    var i :| 0 <= i <= |s| - |part| && MatchesAt(s, part, i);
    assert (head + s)[|head| + i..|head| + i + |part|] == part;
    assert MatchesAt(head + s, part, |head| + i);
  }

  lemma ContainsExtend(s: string, part: string, tail: string)
    requires Contains(s, part)
    ensures Contains(s + tail, part)
  {
    var i :| 0 <= i <= |s| - |part| && MatchesAt(s, part, i);
    assert (s + tail)[i..i + |part|] == part;
    assert MatchesAt(s + tail, part, i);
  }

  predicate NoBraces(s: string) {
    '{' !in s && '}' !in s
  }

  lemma NoBracesConcat(a: string, b: string)
    requires NoBraces(a) && NoBraces(b)
    ensures NoBraces(a + b)
  {
  }

  // ---------------------------------------------------------------------------
  // Names
  // ---------------------------------------------------------------------------

  /** `_build_temp_column_name`: the name of the temporary UUID column of a key column. */
  function TempColumnName(columnName: string): (name: string)
  {
    columnName + TempSuffix
  }

  /** Recovers the key column from a temporary column name. */
  function KeyColumnOf(name: string): (columnName: Option<string>)
  {
    if |name| >= |TempSuffix| && name[|name| - |TempSuffix|..] == TempSuffix
    then Some(name[..|name| - |TempSuffix|])
    else None
  }

  /** `_build_table_name`: schema, a dot, then the table. */
  function TableName(schemaName: string, tableName: string): (name: string)
  {
    schemaName + "." + tableName
  }

  /** Splits a qualified table name at its first dot. */
  function SplitTableName(name: string): (parts: Option<(string, string)>)
    ensures parts.Some? ==> '.' !in parts.value.0 && TableName(parts.value.0, parts.value.1) == name
    ensures parts.None? ==> '.' !in name
  {
    if name == [] then None
    else if name[0] == '.' then Some(([], name[1..]))
    else
      match SplitTableName(name[1..])
      case None => None
      case Some((schemaName, tableName)) => Some(([name[0]] + schemaName, tableName))
  }

  // ---------------------------------------------------------------------------
  // Statements
  // ---------------------------------------------------------------------------

  datatype Statement =
    | DropDefault(table: string, column: string)
    | CopyPkValuesToFk(table: string, column: string, tempColumn: string,
                       foreignTable: string, foreignColumn: string)
    | AlterColumnDatatype(table: string, column: string, dataType: string)
    | AlterPkColumnToUuid(table: string, column: string)
    | DropConstraint(table: string, constraintName: string)
    | CreateConstraint(table: string, constraintName: string, column: string,
                       foreignTable: string, foreignColumn: string)
    | UpdateColumn(table: string, column: string, value: string)
    | AddColumn(table: string, column: string, dataType: string)

  /** The text each builder produces for a statement. */
  function Sql(s: Statement): string
  {
    match s
    case DropDefault(t, c) => DropDefaultSql(t, c)
    case CopyPkValuesToFk(t, c, temp, ft, fc) => CopyPkValuesToFkSql(t, c, temp, ft, fc)
    case AlterColumnDatatype(t, c, ty) => AlterColumnDatatypeSql(t, c, ty)
    case AlterPkColumnToUuid(t, c) => AlterPkColumnToUuidSql(t, c)
    case DropConstraint(t, name) => DropConstraintSql(t, name)
    case CreateConstraint(t, name, c, ft, fc) => CreateConstraintSql(t, name, c, ft, fc)
    case UpdateColumn(t, c, v) => UpdateColumnSql(t, c, v)
    case AddColumn(t, c, ty) => AddColumnSql(t, c, ty)
  }

  /** `_build_sql_to_drop_default_value`: tolerates a missing table. */
  function DropDefaultSql(table: string, column: string): string
  {
    var head := "alter table if exists " + table;
    var drop := " alter column " + column + " drop default";
    head + drop
  }

  /** `_build_sql_to_copy_pk_values_to_fk_columns`: the correlation UPDATE ... FROM. */
  function CopyPkValuesToFkSql(table: string, column: string, tempColumn: string,
                               foreignTable: string, foreignColumn: string): string
  {
    var head := "\n        update " + table + " a \n        ";
    var assign := "set " + column + " = x." + tempColumn + "::varchar\n";
    var from := "        from " + foreignTable + " x\n        ";
    var where := "where a." + column + "::varchar = x." + foreignColumn + "::varchar;";
    var tail := "\n        ";
    head + assign + (from + where + tail)
  }

  /** `_build_sql_to_alter_column_datatype`: retype through a plain cast of the column. */
  function AlterColumnDatatypeSql(table: string, column: string, dataType: string): string
  {
    var head := "\n        alter table " + table + " alter column " + column;
    var retype := " type " + dataType + " using " + column + "::" + dataType + ";";
    var tail := "\n        ";
    head + retype + tail
  }

  /** `_build_sql_to_alter_pk_column_to_uuid`: the zero-padded hexadecimal cast. */
  function AlterPkColumnToUuidSql(table: string, column: string): string
  {
    var head := "\n        alter table " + table + " alter column " + column + " type uuid ";
    var indent := "\n        ";
    var cast := "using cast(lpad(to_hex(" + column + "), 32, '0') as uuid);";
    var tail := "\n        ";
    head + indent + cast + tail
  }

  /** `_build_sql_to_drop_constraint`. */
  function DropConstraintSql(table: string, constraintName: string): string
  {
    var head := "alter table " + table;
    var drop := " drop constraint if exists " + constraintName + ";";
    head + drop
  }

  /** `_build_sql_to_create_constraint`: no MATCH, ON UPDATE or ON DELETE clause. */
  function CreateConstraintSql(table: string, constraintName: string, column: string,
                               foreignTable: string, foreignColumn: string): string
  {
    var head := "\n        alter table " + table;
    var add := " add constraint " + constraintName + " \n";
    var indent := "        ";
    var fk := "foreign key (" + column + ") references " + foreignTable + " (" + foreignColumn + "); ";
    var tail := "\n        ";
    head + add + indent + fk + tail
  }

  /** `_build_sql_to_update_column`: sets every row of the column to one expression. */
  function UpdateColumnSql(table: string, column: string, value: string): string
  {
    var head := "update " + table;
    var assign := " set " + column + " = " + value + ";";
    head + assign
  }

  /** `_build_sql_to_add_column`. */
  function AddColumnSql(table: string, column: string, dataType: string): string
  {
    var head := "alter table " + table;
    var add := " add column if not exists " + column + " " + dataType + ";";
    head + add
  }

  // ---------------------------------------------------------------------------
  // str.format(value=...)
  // ---------------------------------------------------------------------------

  function PrefixWith(prefix: string, rest: Option<string>): Option<string>
  {
    match rest
    case None => None
    case Some(s) => Some(prefix + s)
  }

  /**
   * Python's `template.format(value=v)`, for the templates this model covers:
   * `{{` and `}}` stand for one brace and `{value}` for v. Every other brace
   * gives None. That is exact for a lone brace and for a field naming anything
   * but `value` (`{}`, `{0}`, `{other}`), which make `format` raise. A field
   * of `value` with a conversion, a format spec, an index or an attribute
   * (`{value!r}`, `{value:>40}`, `{value[0]}`) is formatted by Python but
   * also gives None here.
   */
  function FormatValue(template: string, value: string): (r: Option<string>)
    decreases |template|
  {
    if template == [] then Some([])
    else if |template| >= 2 && template[..2] == "{{" then PrefixWith("{", FormatValue(template[2..], value))
    else if |template| >= 2 && template[..2] == "}}" then PrefixWith("}", FormatValue(template[2..], value))
    else if |template| >= |Placeholder| && template[..|Placeholder|] == Placeholder then
      PrefixWith(value, FormatValue(template[|Placeholder|..], value))
    else if template[0] == '{' || template[0] == '}' then None
    else PrefixWith([template[0]], FormatValue(template[1..], value))
  }

  /** `_build_primary_key_update_command`: fills the placeholder with `gen_random_uuid()`. */
  function PrimaryKeyUpdateCommand(updateCommand: string): (command: Option<string>)
  {
    FormatValue(updateCommand, RandomUuid)
  }

  // ---------------------------------------------------------------------------
  // Properties of the builders
  // ---------------------------------------------------------------------------

  /** The drop-default statement tolerates a missing table. */
  lemma DropDefaultShape(table: string, column: string)
    ensures StartsWith(DropDefaultSql(table, column), "alter table if exists " + table + " ")
    ensures Contains(DropDefaultSql(table, column), " alter column " + column + " drop default")
  {
    var head := "alter table if exists " + table;
    var drop := " alter column " + column + " drop default";
    ContainsEnd(head, drop);
    assert (head + drop)[..|head| + 1] == head + " ";
  }

  /** The propagation assigns the referenced temp value where the texts of old ids agree. */
  lemma CopyPkValuesToFkShape(table: string, column: string, tempColumn: string,
                              foreignTable: string, foreignColumn: string)
    ensures StartsWith(CopyPkValuesToFkSql(table, column, tempColumn, foreignTable, foreignColumn),
                       "\n        update " + table + " a \n        ")
    ensures Contains(CopyPkValuesToFkSql(table, column, tempColumn, foreignTable, foreignColumn),
                     "set " + column + " = x." + tempColumn + "::varchar\n")
    ensures Contains(CopyPkValuesToFkSql(table, column, tempColumn, foreignTable, foreignColumn),
                     "        from " + foreignTable + " x\n        ")
    ensures Contains(CopyPkValuesToFkSql(table, column, tempColumn, foreignTable, foreignColumn),
                     "where a." + column + "::varchar = x." + foreignColumn + "::varchar;")
  {
    var head := "\n        update " + table + " a \n        ";
    var assign := "set " + column + " = x." + tempColumn + "::varchar\n";
    var from := "        from " + foreignTable + " x\n        ";
    var where := "where a." + column + "::varchar = x." + foreignColumn + "::varchar;";
    var tail := "\n        ";
    var rest := from + where + tail;
    ContainsMiddle(head, assign, rest);
    ContainsMiddle(from, where, tail);
    ContainsPrepend(head + assign, rest, where);
    ContainsEnd([], from);
    assert [] + from == from;
    ContainsExtend(from, from, where + tail);
    assert from + (where + tail) == rest;
    ContainsPrepend(head + assign, rest, from);
    assert (head + assign + rest)[..|head|] == head;
  }

  /** The retype keeps every value through a plain cast to the target type. */
  lemma AlterColumnDatatypeShape(table: string, column: string, dataType: string)
    ensures StartsWith(AlterColumnDatatypeSql(table, column, dataType),
                       "\n        alter table " + table + " alter column " + column + " ")
    ensures Contains(AlterColumnDatatypeSql(table, column, dataType),
                     " type " + dataType + " using " + column + "::" + dataType + ";")
  {
    var head := "\n        alter table " + table + " alter column " + column;
    var retype := " type " + dataType + " using " + column + "::" + dataType + ";";
    var tail := "\n        ";
    ContainsEnd(head, retype);
    ContainsExtend(head + retype, retype, tail);
    assert (head + retype + tail)[..|head| + 1] == head + " ";
  }

  /** The key retype turns an integer id into the uuid of its zero-padded hexadecimal digits. */
  lemma AlterPkColumnToUuidShape(table: string, column: string)
    ensures StartsWith(AlterPkColumnToUuidSql(table, column),
                       "\n        alter table " + table + " alter column " + column + " type uuid ")
    ensures Contains(AlterPkColumnToUuidSql(table, column),
                     "using cast(lpad(to_hex(" + column + "), 32, '0') as uuid);")
  {
    var head := "\n        alter table " + table + " alter column " + column + " type uuid ";
    var indent := "\n        ";
    var cast := "using cast(lpad(to_hex(" + column + "), 32, '0') as uuid);";
    var tail := "\n        ";
    ContainsEnd(head + indent, cast);
    ContainsExtend(head + indent + cast, cast, tail);
    assert (head + indent + cast + tail)[..|head|] == head;
  }

  /** Dropping a constraint is safe to repeat: the constraint may already be gone. */
  lemma DropConstraintShape(table: string, constraintName: string)
    ensures StartsWith(DropConstraintSql(table, constraintName), "alter table " + table + " ")
    ensures Contains(DropConstraintSql(table, constraintName), " drop constraint if exists " + constraintName + ";")
  {
    var head := "alter table " + table;
    var drop := " drop constraint if exists " + constraintName + ";";
    ContainsEnd(head, drop);
    assert (head + drop)[..|head| + 1] == head + " ";
  }

  /** The recreated constraint names its column and referenced table and column, and no rule. */
  lemma CreateConstraintShape(table: string, constraintName: string, column: string,
                              foreignTable: string, foreignColumn: string)
    ensures StartsWith(CreateConstraintSql(table, constraintName, column, foreignTable, foreignColumn),
                       "\n        alter table " + table + " ")
    ensures Contains(CreateConstraintSql(table, constraintName, column, foreignTable, foreignColumn),
                     " add constraint " + constraintName + " \n")
    ensures Contains(CreateConstraintSql(table, constraintName, column, foreignTable, foreignColumn),
                     "foreign key (" + column + ") references " + foreignTable + " (" + foreignColumn + "); ")
  {
    var head := "\n        alter table " + table;
    var add := " add constraint " + constraintName + " \n";
    var indent := "        ";
    var fk := "foreign key (" + column + ") references " + foreignTable + " (" + foreignColumn + "); ";
    var tail := "\n        ";
    ContainsEnd(head, add);
    ContainsExtend(head + add, add, indent);
    ContainsExtend(head + add + indent, add, fk);
    ContainsExtend(head + add + indent + fk, add, tail);
    ContainsEnd(head + add + indent, fk);
    ContainsExtend(head + add + indent + fk, fk, tail);
    assert (head + add + indent + fk + tail)[..|head| + 1] == head + " ";
  }

  /** The update sets the column of every row of the table to one expression. */
  lemma UpdateColumnShape(table: string, column: string, value: string)
    ensures StartsWith(UpdateColumnSql(table, column, value), "update " + table + " set ")
    ensures Contains(UpdateColumnSql(table, column, value), " set " + column + " = " + value + ";")
  {
    var head := "update " + table;
    var assign := " set " + column + " = " + value + ";";
    ContainsEnd(head, assign);
    assert (head + assign)[..|head| + 5] == head + " set ";
  }

  /** Adding a column is safe to repeat: the column may already exist. */
  lemma AddColumnShape(table: string, column: string, dataType: string)
    ensures StartsWith(AddColumnSql(table, column, dataType), "alter table " + table + " ")
    ensures Contains(AddColumnSql(table, column, dataType), " add column if not exists " + column + " " + dataType + ";")
  {
    var head := "alter table " + table;
    var add := " add column if not exists " + column + " " + dataType + ";";
    ContainsEnd(head, add);
    assert (head + add)[..|head| + 1] == head + " ";
  }

  lemma {:induction false} TempColumnNameRoundTrip(columnName: string, name: string)
    ensures KeyColumnOf(TempColumnName(columnName)) == Some(columnName)
    ensures KeyColumnOf(name) == Some(columnName) ==> TempColumnName(columnName) == name
  {
    var t := TempColumnName(columnName);
    assert t[|t| - |TempSuffix|..] == TempSuffix;
    assert t[..|t| - |TempSuffix|] == columnName;
    if KeyColumnOf(name) == Some(columnName) {
      assert name == name[..|name| - |TempSuffix|] + name[|name| - |TempSuffix|..];
    }
  }

  lemma TempColumnNameInjective(a: string, b: string)
    requires TempColumnName(a) == TempColumnName(b)
    ensures a == b
  {
    TempColumnNameRoundTrip(a, TempColumnName(b));
    TempColumnNameRoundTrip(b, TempColumnName(b));
  }

  lemma {:induction false} TableNameRoundTrip(schemaName: string, tableName: string)
    requires '.' !in schemaName
    ensures SplitTableName(TableName(schemaName, tableName)) == Some((schemaName, tableName))
  {
    var name := TableName(schemaName, tableName);
    if schemaName == [] {
      assert name[1..] == tableName;
    } else {
      assert name[1..] == TableName(schemaName[1..], tableName);
      TableNameRoundTrip(schemaName[1..], tableName);
      assert [schemaName[0]] + schemaName[1..] == schemaName;
    }
  }

  /** Without a dot in the schema, distinct (schema, table) pairs give distinct names. */
  lemma TableNameInjective(s1: string, t1: string, s2: string, t2: string)
    requires '.' !in s1 && '.' !in s2
    requires TableName(s1, t1) == TableName(s2, t2)
    ensures s1 == s2 && t1 == t2
  {
    TableNameRoundTrip(s1, t1);
    TableNameRoundTrip(s2, t2);
  }

  /** A dot in a schema name makes two different tables share one qualified name. */
  lemma TableNameAmbiguous()
    ensures TableName("a.b", "c") == TableName("a", "b.c")
  {
  }

  /** A character other than a brace is copied through by `format`. */
  lemma FormatPlainChar(template: string, value: string)
    requires template != [] && template[0] != '{' && template[0] != '}'
    ensures FormatValue(template, value) == PrefixWith([template[0]], FormatValue(template[1..], value))
  {
    assert |template| >= 2 ==> template[..2][0] == template[0];
    assert |template| >= |Placeholder| ==> template[..|Placeholder|][0] == template[0];
  }

  /** The placeholder is replaced by the value. */
  lemma FormatPlaceholderFirst(tail: string, value: string)
    ensures FormatValue(Placeholder + tail, value) == PrefixWith(value, FormatValue(tail, value))
  {
    var t := Placeholder + tail;
    assert t[..2] == "{v";
    assert t[..|Placeholder|] == Placeholder;
    assert t[|Placeholder|..] == tail;
  }

  /** A brace-free prefix is copied through unchanged. */
  lemma {:induction false} FormatPlainPrefix(head: string, rest: string, value: string)
    requires NoBraces(head)
    ensures FormatValue(head + rest, value) == PrefixWith(head, FormatValue(rest, value))
    decreases |head|
  {
    if head == [] {
      assert head + rest == rest;
      match FormatValue(rest, value)
      case None =>
      case Some(r) => assert head + r == r;
    } else {
      var t := head + rest;
      assert head[0] in head;
      assert t[0] == head[0];
      FormatPlainChar(t, value);
      assert t[1..] == head[1..] + rest;
      assert NoBraces(head[1..]) by {
        assert forall ch :: ch in head[1..] ==> ch in head;
      }
      FormatPlainPrefix(head[1..], rest, value);
      PrefixWithCons(head, FormatValue(rest, value));
    }
  }

  lemma PrefixWithCons(head: string, rest: Option<string>)
    requires head != []
    ensures PrefixWith([head[0]], PrefixWith(head[1..], rest)) == PrefixWith(head, rest)
  {
    if rest.Some? {
      assert [head[0]] + (head[1..] + rest.value) == head + rest.value;
    }
  }

  lemma FormatBraceFree(template: string, value: string)
    requires NoBraces(template)
    ensures FormatValue(template, value) == Some(template)
  {
    FormatPlainPrefix(template, [], value);
    assert template + [] == template;
  }

  lemma FormatPlaceholder(head: string, tail: string, value: string)
    requires NoBraces(head) && NoBraces(tail)
    ensures FormatValue(head + Placeholder + tail, value) == Some(head + value + tail)
  {
    assert head + Placeholder + tail == head + (Placeholder + tail);
    FormatPlainPrefix(head, Placeholder + tail, value);
    FormatPlaceholderFirst(tail, value);
    FormatBraceFree(tail, value);
    assert head + (value + tail) == head + value + tail;
  }

  /** With brace-free names, the formatted temp-column update is the plain update. */
  lemma PrimaryKeyUpdateCommandFillsPlaceholder(table: string, column: string)
    requires NoBraces(table) && NoBraces(column)
    ensures PrimaryKeyUpdateCommand(UpdateColumnSql(table, column, Placeholder))
            == Some(UpdateColumnSql(table, column, RandomUuid))
  {
    var head := "update " + table + " set " + column + " = ";
    assert NoBraces(head) by {
      NoBracesConcat("update ", table);
      NoBracesConcat("update " + table, " set ");
      NoBracesConcat("update " + table + " set ", column);
      NoBracesConcat("update " + table + " set " + column, " = ");
    }
    FormatPlaceholder(head, ";", RandomUuid);
    UpdateColumnSqlAround(table, column, Placeholder);
    UpdateColumnSqlAround(table, column, RandomUuid);
  }

  lemma UpdateColumnSqlAround(table: string, column: string, value: string)
    ensures UpdateColumnSql(table, column, value) == "update " + table + " set " + column + " = " + value + ";"
  {
  }
}
